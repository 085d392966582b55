/** Passes short enough for the counter: what the back ends' agreement asks of
    the machine and the scripts, told without looking inside a run. */
module Pacing {
  import opened Script
  import opened Machine
  import opened Structured
  import opened TaskCode
  import opened Generator
  import opened Simulation
  import opened Scheduler
  import opened Targets
  import opened Timely
  import opened Meaning
  import opened MeaningKept

  // ---- where generators poll ----------------------------------------------

  /** Every poll loop stands behind the statement that sets its deadline. */
  predicate Plain(code: seq<Flow>)
    decreases code
  {
    code == [] ||
      match code[0]
      case WhilePending(_) => false
      case SetDeadline(_) => Waiting(code[1..])
      case _ => PlainInside(code[0]) && Plain(code[1..])
  }

  /** The same, but for the poll loop it begins with. */
  predicate Waiting(code: seq<Flow>)
    decreases code
  {
    code != [] && code[0] == WhilePending([Yield]) && Plain(code[1..])
  }

  predicate PlainInside(f: Flow)
    decreases f
  {
    match f
    case While(_, _, body) => Plain(body)
    case Always(body) => Plain(body)
    case ForRange(_, body) => Plain(body)
    case ForLeft(_, body) => Plain(body)
    case Branch(_, body, orelse) => Plain(body) && Plain(orelse)
    case ForBelow(_, body) => Plain(body)
    case ForFrom(_, _, body) => Plain(body)
    case _ => true
  }

  lemma {:induction false} PlainConcat(a: seq<Flow>, b: seq<Flow>)
    requires Plain(b)
    ensures Plain(a) ==> Plain(a + b)
    ensures Waiting(a) ==> Waiting(a + b)
    decreases a
  {
    if a == [] {
      assert a + b == b;
    } else {
      assert (a + b)[0] == a[0] && (a + b)[1..] == a[1..] + b;
      PlainConcat(a[1..], b);
    }
  }

  lemma {:induction false} PlainCons(f: Flow, rest: seq<Flow>)
    requires !f.WhilePending? && !f.SetDeadline? && PlainInside(f) && Plain(rest)
    ensures Plain([f] + rest)
  {
    assert ([f] + rest)[1..] == rest;
  }

  lemma {:induction false} PlainAlone(f: Flow)
    ensures !f.WhilePending? && !f.SetDeadline? && PlainInside(f) ==> Plain([f])
  {
    assert [f][1..] == [];
  }

  lemma {:induction false} PlainSuite(code: seq<Flow>)
    requires Plain(code)
    ensures Plain(Suite(code)) && Plain(Suite(code) + [Yield])
  {
    assert Plain([Yield][1..]);
    assert Plain([Pass][1..]);
    PlainConcat(Suite(code), [Yield]);
  }

  lemma {:induction false} PlainEmit(s: Stmt)
    ensures Plain(Emit(s))
    decreases s
  {
    hide EmitAll, Suite;
    PlainAlone(Emit(s)[0]);
    match s
    case Wait(e) =>
      assert Emit(s)[1..] == [WhilePending([Yield])];
      assert Plain([WhilePending([Yield])][1..]);
    case WaitUntil(c) => PlainAlone(Yield);
    case Forever(body) => PlainEmitAll(body); PlainSuite(EmitAll(body));
    case Repeat(_, body) => PlainEmitAll(body); PlainSuite(EmitAll(body));
    case Loop(_, _, body) => PlainEmitAll(body); PlainSuite(EmitAll(body));
    case If(_, body, orelse) =>
      PlainEmitAll(body);
      PlainSuite(EmitAll(body));
      PlainEmitAll(orelse);
      PlainSuite(EmitAll(orelse));
      assert Plain([]);
    case _ =>
  }

  lemma {:induction false} PlainEmitAll(body: seq<Stmt>)
    ensures Plain(EmitAll(body))
    decreases body
  {
    hide Emit;
    if body != [] {
      PlainEmit(body[0]);
      PlainEmitAll(body[1..]);
      PlainConcat(Emit(body[0]), EmitAll(body[1..]));
    }
  }

  lemma {:induction false} PlainScript(body: seq<Stmt>)
    ensures Plain(EmitScript(body))
  {
    PlainEmitAll(body);
    PlainSuite(EmitAll(body));
  }

  // ---- one turn -----------------------------------------------------------

  /** A poll, if one comes next, waits for a time no earlier than `from`. */
  ghost predicate Held(code: seq<Flow>, due: int, from: int) {
    Plain(code) || (Waiting(code) && from <= due)
  }

  /** A poll loop that has just found its deadline ahead and is to yield. */
  predicate Leaving(code: seq<Flow>) {
    code != [] && code[0].Yield? && Waiting(code[1..])
  }

  /** During a turn that began at `start`. */
  ghost predicate Poised(c: Config, from: int, start: int) {
    match c
    case Go(code, due, _) => Held(code, due, from) || (Leaving(code) && start <= due)
    case Paused(code, due, _) => Held(code, due, start)
    case Over(_) => true
  }

  lemma {:induction false} LoopPlain(body: seq<Flow>, again: Flow, rest: seq<Flow>)
    requires !again.WhilePending? && !again.SetDeadline? && PlainInside(again)
    requires Plain(body) && Plain(rest)
    ensures Plain(body + [again] + rest)
  {
    PlainCons(again, rest);
    PlainConcat(body, [again] + rest);
    assert body + [again] + rest == body + ([again] + rest);
  }

  /** What the head of the remaining program tells of the rest. */
  lemma {:induction false} HeadTells(code: seq<Flow>, due: int, from: int, start: int)
    requires code != [] && (Held(code, due, from) || (Leaving(code) && start <= due))
    ensures var f, rest := code[0], code[1..];
            match f
            case WhilePending(body) => body == [Yield] && Waiting(code) && Plain(rest)
            case SetDeadline(_) => Waiting(rest)
            case Yield => Held(rest, due, start)
            case _ => PlainInside(f) && Plain(rest)
  {
  }

  lemma {:induction false} BodyIsPlain(f: Flow)
    requires PlainInside(f) && (f.While? || f.Always? || f.ForRange? || f.ForLeft? || f.ForBelow? || f.ForFrom?)
    ensures Plain(f.body)
    ensures f.ForLeft? ==> forall left :: PlainInside(ForLeft(left, f.body))
    ensures f.ForFrom? ==> PlainInside(ForFrom(f.index + 1, f.count, f.body))
  {
  }

  lemma {:induction false} EnterPlain(m: Machine, f: Flow, rest: seq<Flow>, due: int, w: World)
    requires !f.WhilePending? && !f.SetDeadline? && PlainInside(f) && Plain(rest)
    ensures var r := Enter(MicroBit, m, f, rest, due, w); !r.Over? ==> Plain(r.code)
  {
    hide Plain, Latch, Number, Test, Perform;
    match f
    case While(_, _, body) =>
      BodyIsPlain(f);
      LoopPlain(body, f, rest);
    case Always(body) =>
      BodyIsPlain(f);
      LoopPlain(body, f, rest);
    case ForLeft(left, body) =>
      BodyIsPlain(f);
      LoopPlain(body, ForLeft(if left > 0 then left - 1 else 0, body), rest);
    case ForFrom(i, n, body) =>
      BodyIsPlain(f);
      LoopPlain(body, ForFrom(i + 1, n, body), rest);
    case ForRange(n, body) => PlainCons(ForLeft(Latch(MicroBit, Number(m, n, w).0), body), rest);
    case ForBelow(n, body) => PlainCons(ForFrom(0, n, body), rest);
    case Branch(_, body, orelse) =>
      PlainConcat(body, rest);
      PlainConcat(orelse, rest);
    case Halt => PlainCons(f, rest);
    case _ =>
  }

  lemma {:induction false} StepPoised(m: Machine, t: Target, c: Config, from: int, start: int)
    requires StepMeets(Modest, m, t, c) && Poised(c, from, start)
    requires start <= TimeOf(m, c)
    ensures Poised(Step(MicroBit, m, c), start, start)
  {
    hide Plain, Waiting, PlainInside, Latch, NotTooSoon, NotTooLate, CountFits, Number, Test, Perform;
    if c.Go? && c.code != [] {
      var f, rest := c.code[0], c.code[1..];
      HeadTells(c.code, c.due, from, start);
      if f.WhilePending? {
        assert [Yield] + [f] + rest == [Yield] + c.code;
        assert ([Yield] + c.code)[1..] == c.code;
      } else if !f.SetDeadline? && !f.Yield? {
        EnterPlain(m, f, rest, c.due, c.world);
      }
    }
  }

  lemma {:induction false} StepInTime(m: Machine, t: Target, c: Config, from: int, start: int, end: int)
    requires StepMeets(Modest, m, t, c) && Poised(c, from, start)
    requires TimeOf(m, c) <= end && NotTooLate(t, end, from)
    ensures StepMeets(InTime, m, t, c)
  {
    hide Plain, CountFits, NotTooSoon;
    if c.Go? && c.code != [] && c.code[0].WhilePending? {
      NotPlain(c.code);
      Sooner(t, TimeOf(m, c), end, from, c.due);
    }
  }

  lemma {:induction false} NotPlain(code: seq<Flow>)
    requires code != [] && code[0].WhilePending?
    ensures !Plain(code) && !Leaving(code)
  {
  }

  lemma {:induction false} Sooner(t: Target, now: int, end: int, from: int, due: int)
    requires NotTooLate(t, end, from) && now <= end && from <= due
    ensures NotTooLate(t, now, due)
  {
  }

  lemma {:induction false} StepsPoised(m: Machine, t: Target, n: nat, c: Config, from: int, start: int)
    requires Forward(m) && Meets(Modest, m, t, n, c) && Poised(c, from, start)
    requires start <= TimeOf(m, c)
    ensures Poised(Steps(MicroBit, m, n, c), if n > 0 then start else from, start)
    decreases n
  {
    hide Forward, StepMeets, Poised, Step, Now;
    if n > 0 {
      StepPoised(m, t, c, from, start);
      StepForward(m, c);
      StepsPoised(m, t, n - 1, Step(MicroBit, m, c), start, start);
    }
  }

  lemma {:induction false} StepsInTime(m: Machine, t: Target, n: nat, c: Config, from: int, start: int, end: int)
    requires Forward(m) && Meets(Modest, m, t, n, c) && Poised(c, from, start)
    requires from <= start <= TimeOf(m, c) && TimeOf(m, Steps(MicroBit, m, n, c)) <= end
    requires NotTooLate(t, end, from)
    ensures Meets(InTime, m, t, n, c)
    decreases n
  {
    hide Forward, StepMeets, Poised, Step, Now, NotTooLate;
    if n > 0 {
      StepsForward(m, n, c);
      StepInTime(m, t, c, from, start, end);
      StepPoised(m, t, c, from, start);
      StepForward(m, c);
      Sooner(t, end, end, from, start);
      StepsInTime(m, t, n - 1, Step(MicroBit, m, c), start, start, end);
    }
  }

  ghost predicate GenHeld(gen: Gen, from: int) {
    gen.Alive? ==> Held(gen.code, gen.due, from)
  }

  lemma {:induction false} TurnInTime(m: Machine, t: Target, budget: nat, gen: Gen, w: World, from: int, start: int,
                                      end: int)
    requires Forward(m) && TurnMeets(Modest, m, t, budget, gen, w) && GenHeld(gen, from)
    requires from <= start <= Now(m, w.env) && Now(m, Resume(MicroBit, m, budget, gen, w).1.env) <= end
    requires NotTooLate(t, end, from)
    ensures TurnMeets(InTime, m, t, budget, gen, w)
  {
    hide Forward, Meets, Steps, Held, Now, NotTooLate;
    if gen.Alive? {
      StepsInTime(m, t, budget, Go(gen.code, gen.due, w), from, start, end);
    }
  }

  lemma {:induction false} TurnHeld(m: Machine, t: Target, budget: nat, gen: Gen, w: World, from: int, start: int)
    requires Forward(m) && TurnMeets(Modest, m, t, budget, gen, w) && GenHeld(gen, from)
    requires start <= Now(m, w.env) && budget > 0
    ensures var (gen1, _) := Resume(MicroBit, m, budget, gen, w);
            (gen1.Alive? && Leaving(gen1.code)) || GenHeld(gen1, start)
  {
    hide Forward, Meets, Steps, Held, Leaving, Now;
    if gen.Alive? {
      StepsPoised(m, t, budget, Go(gen.code, gen.due, w), from, start);
    }
  }

  // ---- a turn is never cut off at its yield -------------------------------

  predicate YieldFirst(code: seq<Flow>) {
    code != [] && code[0].Yield?
  }

  lemma {:induction false} NoYieldFirst(s: Stmt)
    ensures Emit(s) != [] && !YieldFirst(Emit(s))
  {
  }

  lemma {:induction false} RestNotYield(s: Stmt, n: nat, v: nat, k: nat, counters: map<nat, nat>)
    requires n < k <= n + Yields(s)
    ensures Rest(s, n, v, k, counters) != [] && !YieldFirst(Rest(s, n, v, k, counters))
    decreases s
  {
    hide Emit, EmitAll, Suite;
    NoYieldFirst(s);
    match s
    case Forever(body) => if k > n + 1 { RestInNotYield(body, n + 1, v, k, counters); }
    case Repeat(_, body) => if k > n + 1 { RestInNotYield(body, n + 1, v + 1, k, counters); }
    case Loop(_, _, body) => if k > n + 1 { RestInNotYield(body, n + 1, v, k, counters); }
    case If(_, body, orelse) =>
      if k <= n + YieldsIn(body) {
        RestInNotYield(body, n, v, k, counters);
      } else {
        RestInNotYield(orelse, n + YieldsIn(body), v + RepeatsIn(body), k, counters);
      }
    case _ =>
  }

  lemma {:induction false} RestInNotYield(body: seq<Stmt>, n: nat, v: nat, k: nat, counters: map<nat, nat>)
    requires n < k <= n + YieldsIn(body)
    ensures RestIn(body, n, v, k, counters) != [] && !YieldFirst(RestIn(body, n, v, k, counters))
    decreases body
  {
    hide Rest, EmitAll;
    if k <= n + Yields(body[0]) {
      RestNotYield(body[0], n, v, k, counters);
    } else {
      RestInNotYield(body[1..], n + Yields(body[0]), v + Repeats(body[0]), k, counters);
    }
  }

  lemma {:induction false} ScriptNotYield(body: seq<Stmt>)
    ensures !YieldFirst(EmitScript(body))
  {
    hide Emit, YieldsSomewhere;
    if body != [] {
      NoYieldFirst(body[0]);
    }
  }

  lemma {:induction false} AlikeNotYield(body: seq<Stmt>, v: nat, state: nat, until: int, counters: map<nat, nat>,
                                         gen: Gen)
    requires Alike(body, v, state, until, counters, gen)
    ensures gen.Alive? ==> !YieldFirst(gen.code)
  {
    hide EmitScript, RestIn, LiveIn;
    if gen.Alive? && state != STOPPED {
      if state == 0 {
        ScriptNotYield(body);
      } else {
        RestInNotYield(body, 0, v, state, counters);
      }
    }
  }

  // ---- passes and runs ----------------------------------------------------

  ghost predicate AllHeld(p: PySystem, i: nat, from: int, start: int) {
    forall j | 0 <= j < |p.gens| :: GenHeld(p.gens[j], if j < i then start else from)
  }

  /** One task's turn leaves every later poll waiting for a time since `start`. */
  lemma {:induction false} TurnAllHeld(m: Machine, t: Target, whens: seq<seq<Stmt>>, v: nat, budget: nat, i: nat,
                                       c: CSystem, p: PySystem, from: int, start: int)
    requires Forward(m) && Fits(whens, budget) && Together(whens, v, c, p) && i < |whens|
    requires TurnMeets(Modest, m, t, budget, p.gens[i], p.world)
    requires start <= Now(m, p.world.env) && AllHeld(p, i, from, start)
    ensures var (gen, w) := Resume(MicroBit, m, budget, p.gens[i], p.world);
            AllHeld(AfterTurn(p, i, gen, w), i + 1, from, start)
  {
    hide Forward, TurnMeets, Resume, Remove, Now, GenHeld, Dispatch, LowerAll, AlikeAt, CounterBase, AliveFrom;
    var (gen, w) := Resume(MicroBit, m, budget, p.gens[i], p.world);
    SameTurn(MicroBit, m, whens, v, budget, i, c, p);
    TurnHeld(m, t, budget, p.gens[i], p.world, from, start);
    var base := CounterBase(whens, v, i);
    var cs := Dispatch(MicroBit, m, LowerAll(whens[i], 0, base), CState(c.tasks[i].state, c.tasks[i].until, c.counters, c.world));
    var c1 := CSystem(c.tasks[i := CTask(cs.state, cs.until)], cs.counters, cs.world);
    var gens1 := p.gens[i := gen];
    var p1 := PySystem(if p.gens[i].Alive? && gen.Finished? then Remove(p.tasks, i) else p.tasks, gens1, w);
    assert AlikeAt(whens, v, c1, p1, i);
    AlikeAtNotYield(whens, v, c1, p1, i);
  }

  lemma {:induction false} AlikeAtNotYield(whens: seq<seq<Stmt>>, v: nat, c: CSystem, p: PySystem, i: nat)
    requires i < |whens| == |c.tasks| == |p.gens| && AlikeAt(whens, v, c, p, i)
    ensures p.gens[i].Alive? ==> !Leaving(p.gens[i].code)
  {
    AlikeNotYield(whens[i], CounterBase(whens, v, i), c.tasks[i].state, c.tasks[i].until, c.counters, p.gens[i]);
  }

  /** From task `i` on, a pass that began at `start`, the one before it at `from`,
      and that is over by `end`. */
  lemma {:induction false} PassInTime(m: Machine, t: Target, whens: seq<seq<Stmt>>, v: nat, budget: nat, i: nat,
                                      c: CSystem, p: PySystem, from: int, start: int, end: int)
    requires Forward(m) && Fits(whens, budget) && Together(whens, v, c, p) && i <= |whens|
    requires PassMeets(Modest, m, t, budget, AliveFrom(p.gens, i), p)
    requires from <= start <= Now(m, p.world.env) && AllHeld(p, i, from, start)
    requires Now(m, PyPass(MicroBit, m, budget, AliveFrom(p.gens, i), p).world.env) <= end
    requires NotTooLate(t, end, from)
    ensures PassMeets(InTime, m, t, budget, AliveFrom(p.gens, i), p)
    ensures AllHeld(PyPass(MicroBit, m, budget, AliveFrom(p.gens, i), p), |whens|, from, start)
    decreases |whens| - i
  {
    hide Forward, TurnMeets, Resume, Dispatch, LowerAll, Remove, AlikeAt, CounterBase, GenHeld, Now, NotTooLate;
    if i == |whens| {
      assert AliveFrom(p.gens, i) == [];
      return;
    }
    var base := CounterBase(whens, v, i);
    var cs := Dispatch(MicroBit, m, LowerAll(whens[i], 0, base), CState(c.tasks[i].state, c.tasks[i].until, c.counters, c.world));
    var c1 := CSystem(c.tasks[i := CTask(cs.state, cs.until)], cs.counters, cs.world);
    var snapshot := AliveFrom(p.gens, i);
    if !p.gens[i].Alive? {
      SkippedTurn(m, whens, v, budget, i, c, p);
      HeldSkipped(p, i, from, start);
      PassInTime(m, t, whens, v, budget, i + 1, c1, p, from, start, end);
      return;
    }
    var (gen, w) := Resume(MicroBit, m, budget, p.gens[i], p.world);
    var p1 := AfterTurn(p, i, gen, w);
    SameTurn(MicroBit, m, whens, v, budget, i, c, p);
    AliveFromSame(p.gens, p1.gens, i + 1);
    assert snapshot[1..] == AliveFrom(p.gens, i + 1);
    TurnForward(m, budget, p.gens[i], p.world);
    PassForward(m, budget, snapshot[1..], p1);
    TurnInTime(m, t, budget, p.gens[i], p.world, from, start, end);
    TurnAllHeld(m, t, whens, v, budget, i, c, p, from, start);
    PassInTime(m, t, whens, v, budget, i + 1, c1, p1, from, start, end);
  }

  lemma {:induction false} SkippedTurn(m: Machine, whens: seq<seq<Stmt>>, v: nat, budget: nat, i: nat, c: CSystem,
                                       p: PySystem)
    requires Fits(whens, budget) && Together(whens, v, c, p) && i < |whens| && p.gens[i].Finished?
    ensures var cs := Dispatch(MicroBit, m, LowerAll(whens[i], 0, CounterBase(whens, v, i)),
                               CState(c.tasks[i].state, c.tasks[i].until, c.counters, c.world));
            Together(whens, v, CSystem(c.tasks[i := CTask(cs.state, cs.until)], cs.counters, cs.world), p)
  {
    hide Dispatch, Resume, LowerAll, Remove, AlikeAt, CounterBase, AliveFrom;
    SameTurn(MicroBit, m, whens, v, budget, i, c, p);
    FinishedResume(MicroBit, m, budget, p.gens[i], p.world);
    assert p.gens[i := p.gens[i]] == p.gens;
  }

  lemma {:induction false} HeldSkipped(p: PySystem, i: nat, from: int, start: int)
    requires AllHeld(p, i, from, start) && i < |p.gens| && p.gens[i].Finished?
    ensures AllHeld(p, i + 1, from, start)
  {
    hide Held;
  }

  /** What time it is after so many passes. */
  function After(m: Machine, budget: nat, passes: nat, p: PySystem): int {
    Now(m, PyRun(MicroBit, m, budget, passes, p).world.env)
  }

  /** No two passes in a row take half the counter. */
  ghost predicate Brief(m: Machine, t: Target, budget: nat, passes: nat, p: PySystem) {
    passes > 0 ==>
      && Brief(m, t, budget, passes - 1, p)
      && NotTooLate(t, After(m, budget, passes, p), After(m, budget, if passes == 1 then 0 else passes - 2, p))
  }

  /** Passes that are brief poll every wait in time. */
  lemma {:induction false} BriefRun(m: Machine, t: Target, whens: seq<seq<Stmt>>, v: nat, budget: nat, passes: nat,
                                    w: World)
    requires Forward(m) && Fits(whens, budget)
    requires RunMeets(Modest, m, t, budget, passes, PyStart(whens, w)) && Brief(m, t, budget, passes, PyStart(whens, w))
    ensures RunMeets(InTime, m, t, budget, passes, PyStart(whens, w))
    ensures var p := PyStart(whens, w);
            AllHeld(PyRun(MicroBit, m, budget, passes, p), 0, After(m, budget, if passes == 0 then 0 else passes - 1, p), 0)
    decreases passes
  {
    hide Forward, PassMeets, PyPass, Resume, AlikeAt, CPass, NotTooLate, GenHeld, Now;
    var p := PyStart(whens, w);
    if passes == 0 {
      StartHeld(whens, w, After(m, budget, 0, p));
    } else {
      BriefRun(m, t, whens, v, budget, passes - 1, w);
      SameRun(MicroBit, m, whens, v, budget, passes - 1, w);
      var c, q := CRun(MicroBit, m, whens, v, passes - 1, w), PyRun(MicroBit, m, budget, passes - 1, p);
      var from, start := After(m, budget, if passes == 1 then 0 else passes - 2, p), After(m, budget, passes - 1, p);
      RunForward(m, budget, if passes == 1 then 0 else passes - 2, p);
      HeldFrom(q, from, 0, start);
      PassInTime(m, t, whens, v, budget, 0, c, q, from, start, After(m, budget, passes, p));
      HeldTo(PyRun(MicroBit, m, budget, passes, p), from, start);
    }
  }

  lemma {:induction false} RunForward(m: Machine, budget: nat, passes: nat, p: PySystem)
    requires Forward(m)
    ensures After(m, budget, passes, p) <= After(m, budget, passes + 1, p)
  {
    hide Forward, Now, PyPass;
    var q := PyRun(MicroBit, m, budget, passes, p);
    if InList(q) {
      PassForward(m, budget, q.tasks, q);
    }
  }

  lemma {:induction false} HeldFrom(p: PySystem, from: int, a: int, b: int)
    requires AllHeld(p, 0, from, a)
    ensures AllHeld(p, 0, from, b)
  {
    hide GenHeld;
  }

  lemma {:induction false} HeldTo(p: PySystem, from: int, start: int)
    requires AllHeld(p, |p.gens|, from, start)
    ensures AllHeld(p, 0, start, 0)
  {
    hide GenHeld;
  }

  lemma {:induction false} StartHeld(whens: seq<seq<Stmt>>, w: World, from: int)
    ensures AllHeld(PyStart(whens, w), 0, from, 0)
  {
    hide EmitScript, Plain, Waiting;
    var p := PyStart(whens, w);
    forall j | 0 <= j < |p.gens| ensures GenHeld(p.gens[j], from) {
      PlainScript(whens[j]);
    }
  }

  lemma {:induction false} StartDueSoon(m: Machine, t: Target, whens: seq<seq<Stmt>>, w: World)
    requires Sound(t) && 0 <= Now(m, w.env)
    ensures AllDueSoon(m, t, PyStart(whens, w))
  {
    hide EmitScript, Now;
  }

  /** Within reach throughout, for reasons that show from outside. */
  lemma {:induction false} PacedRun(m: Machine, t: Target, whens: seq<seq<Stmt>>, budget: nat, passes: nat, w: World)
    requires Sound(t) && Forward(m) && 0 <= Now(m, w.env) && Fits(whens, budget)
    requires RunMeets(Modest, m, t, budget, passes, PyStart(whens, w)) && Brief(m, t, budget, passes, PyStart(whens, w))
    ensures RunMeets(InReach, m, t, budget, passes, PyStart(whens, w))
  {
    hide Forward, RunMeets, Brief, AllDueSoon, AllHeld, Fits, PyStart, PyRun, Now;
    BriefRun(m, t, whens, 0, budget, passes, w);
    StartDueSoon(m, t, whens, w);
    InTimeRun(m, t, budget, passes, PyStart(whens, w));
  }

  /** The contract again, asking only what a caller can see to: a clock that is
      not set back, REPEAT counts the counter holds, waits no longer than half the
      clock and none negative, and no two passes in a row that take as long. */
  lemma {:induction false} BackEndsAgreeWhenPaced(m: Machine, c: Target, py: Target, whens: seq<seq<Stmt>>, v: nat,
                                                  budget: nat, passes: nat, w: World)
    requires c.C? && Sound(c) && !py.C? && Sound(py)
    requires Fits(whens, budget) && Forward(m) && 0 <= Now(m, w.env)
    requires forall t | t in {c, py} ::
               RunMeets(Modest, m, t, budget, passes, PyStart(whens, w)) && Brief(m, t, budget, passes, PyStart(whens, w))
    ensures var scene := SceneRun(MicroBit, m, budget, whens, passes, w);
            && scene.whole
            && CRun(c, m, whens, v, passes, w).world == scene.world
            && PyRun(py, m, budget, passes, PyStart(whens, w)).world == scene.world
  {
    hide Forward, RunMeets, Brief, Fits, PyStart, CRun, PyRun, SceneRun, Now;
    PacedRun(m, c, whens, budget, passes, w);
    PacedRun(m, py, whens, budget, passes, w);
    TargetsMeanTheScripts(m, c, py, whens, v, budget, passes, w);
  }
}
