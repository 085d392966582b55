/** Many scripts, shared globals: the two round-robin schedulers pass by pass. */
module Scheduler {
  import opened Script
  import opened Machine
  import opened Structured
  import opened TaskCode
  import opened Generator
  import opened Simulation

  // ---- one task, one dispatch ---------------------------------------------

  datatype Gen = Alive(code: seq<Flow>, due: int) | Finished

  /** `next(gen)`, cut off after `budget` steps. */
  function Resume(t: Target, m: Machine, budget: nat, gen: Gen, w: World): (Gen, World)
    requires Sound(t)
  {
    if gen.Finished? then (gen, w) else
    match Steps(t, m, budget, Go(gen.code, gen.due, w))
    case Over(w1) => (Finished, w1)
    case Paused(code, due, w1) => (Alive(code, due), w1)
    case Go(code, due, w1) => (Alive(code, due), w1)
  }

  /** `next(gen)` comes back of itself. */
  predicate Returns(t: Target, m: Machine, budget: nat, gen: Gen, w: World)
    requires Sound(t)
  {
    gen.Alive? ==> !Steps(t, m, budget, Go(gen.code, gen.due, w)).Go?
  }

  /** Between passes a task and its generator stand at the same place. A script
      without a yield is over one pass later in Python, with nothing left to do. */
  ghost predicate Alike(body: seq<Stmt>, v: nat, state: nat, until: int, counters: map<nat, nat>, gen: Gen) {
    if state == STOPPED then gen.Alive? ==> gen.code == []
    else
      && gen.Alive? && gen.due == until
      && if state == 0 then gen.code == EmitScript(body)
         else state <= YieldsIn(body) && LiveIn(body, 0, v, state, counters)
              && gen.code == RestIn(body, 0, v, state, counters)
  }

  /** Enough generator steps for any one resume of the script. */
  function Budget(body: seq<Stmt>): nat {
    WeightIn(body) + 2
  }

  lemma {:induction false} StoppedStaysStopped(t: Target, m: Machine, body: seq<Stmt>, v: nat, cs: CState)
    requires Sound(t)
    requires YieldsIn(body) < STOPPED && cs.state == STOPPED
    ensures Dispatch(t, m, LowerAll(body, 0, v), cs) == cs
  {
    SeekPastAll(t, m, body, 0, v, STOPPED, cs);
    ExecCons(t, m, Case(0), LowerAll(body, 0, v), Seek(STOPPED), cs);
  }

  /** After its last statement a generator ends, or pauses once more at the bare yield. */
  lemma {:induction false} FinishScript(t: Target, m: Machine, body: seq<Stmt>, due: int, w: World) returns (steps: nat)
    requires Sound(t)
    ensures steps == 1
    ensures var tail := if YieldsIn(body) == 0 then [Yield] else [];
            Steps(t, m, steps, Go(tail, due, w)) == if YieldsIn(body) == 0 then Paused([], due, w) else Over(w)
  {
    steps := 1;
    if YieldsIn(body) == 0 {
      assert [Yield] + [] == [Yield];
      StepOnce(t, m, Yield, [], due, w);
    } else {
      assert Steps(t, m, 1, Go([], due, w)) == Steps(t, m, 0, Step(t, m, Go([], due, w)));
    }
  }

  lemma {:induction false} SameDispatch(t: Target, m: Machine, body: seq<Stmt>, v: nat, cs: CState, gen: Gen,
                                        budget: nat)
    requires Sound(t)
    requires YieldsIn(body) < STOPPED && budget >= Budget(body)
    requires Alike(body, v, cs.state, cs.until, cs.counters, gen)
    ensures var cs1 := Dispatch(t, m, LowerAll(body, 0, v), cs);
            var (gen1, w1) := Resume(t, m, budget, gen, cs.world);
            && w1 == cs1.world
            && Alike(body, v, cs1.state, cs1.until, cs1.counters, gen1)
            && Frame(cs.counters, cs1.counters, v, RepeatsIn(body))
    ensures Returns(t, m, budget, gen, cs.world)
  {
    hide Exec, ExecAll, Lower, LowerAll, Emit, EmitAll, Step, Enter, Steps, Weight, WeightIn, Rest, RestIn, Live, LiveIn,
         YieldsSomewhere, Yielding;
    if cs.state == STOPPED {
      StoppedStaysStopped(t, m, body, v, cs);
      FinishedStays(t, m, budget, gen, cs.world);
      return;
    }
    var code := LowerAll(body, 0, v);
    var tail := if YieldsIn(body) == 0 then [Yield] else [];
    var mode := if cs.state == 0 then Run else Seek(cs.state);
    ExecCons(t, m, Case(0), code, Seek(cs.state), cs);
    CaseZero(t, m, cs);
    var out := ExecAll(t, m, code, mode, cs);
    var g := Go(gen.code, gen.due, cs.world);
    var steps := EnterScript(t, m, body, v, mode, cs, gen);
    var g0 := Go(AtIn(body, 0, v, mode, cs) + tail, cs.until, cs.world);
    var more := SimulateBlock(t, m, body, 0, v, mode, cs, tail);
    StepsAdd(t, m, steps, more, g);
    steps := steps + more;
    if out.Fell? {
      var last := FinishScript(t, m, body, out.s.until, out.s.world);
      StepsAdd(t, m, steps, last, g);
      steps := steps + last;
    }
    var end := Steps(t, m, steps, g);
    assert !end.Go?;
    StepsAdd(t, m, steps, budget - steps, g);
    StepsSettled(t, m, budget - steps, end);
    if out.Returned? && out.s.state != STOPPED {
      assert end.code == RestIn(body, 0, v, out.s.state, out.s.counters);
    }
  }

  lemma {:induction false} FinishedStays(t: Target, m: Machine, budget: nat, gen: Gen, w: World)
    requires Sound(t) && budget > 0
    requires gen.Alive? ==> gen.code == []
    ensures Resume(t, m, budget, gen, w) == (Finished, w) && Returns(t, m, budget, gen, w)
  {
    if gen.Alive? {
      StepsAdd(t, m, 1, budget - 1, Go([], gen.due, w));
      StepsSettled(t, m, budget - 1, Over(w));
      assert Steps(t, m, 1, Go([], gen.due, w)) == Steps(t, m, 0, Over(w));
    }
  }

  lemma {:induction false} CaseZero(t: Target, m: Machine, cs: CState)
    requires Sound(t)
    ensures Exec(t, m, Case(0), Seek(cs.state), cs) == Fell(if cs.state == 0 then Run else Seek(cs.state), cs)
  {
  }

  /** What the generator has left, as the block simulation wants to see it. */
  lemma {:induction false} EnterScript(t: Target, m: Machine, body: seq<Stmt>, v: nat, mode: Mode, cs: CState,
                                       gen: Gen) returns (steps: nat)
    requires Sound(t) && cs.state != STOPPED
    requires mode == if cs.state == 0 then Run else Seek(cs.state)
    requires Alike(body, v, cs.state, cs.until, cs.counters, gen)
    ensures EntryIn(body, 0, v, mode, cs)
    ensures steps <= 1
    ensures Steps(t, m, steps, Go(gen.code, gen.due, cs.world)) ==
            Go(AtIn(body, 0, v, mode, cs) + (if YieldsIn(body) == 0 then [Yield] else []), cs.until, cs.world)
  {
    hide Emit, EmitAll, YieldsSomewhere, Rest, RestIn, Steps, Step, Live, LiveIn;
    YieldsSomewhereIffLabelled(body);
    steps := 0;
    var tail := if YieldsIn(body) == 0 then [Yield] else [];
    if mode.Run? && YieldsIn(body) == 0 {
      steps := EnterSuite(t, m, EmitAll(body), tail, gen.due, cs.world);
    } else {
      assert AtIn(body, 0, v, mode, cs) + [] == AtIn(body, 0, v, mode, cs);
      assert Steps(t, m, 0, Go(gen.code, gen.due, cs.world)) == Go(gen.code, gen.due, cs.world) by { StepsZero(t, m, Go(gen.code, gen.due, cs.world)); }
    }
  }

  // ---- tasks keep out of each other's counters ----------------------------

  ghost predicate Agree(a: map<nat, nat>, b: map<nat, nat>, v: nat, count: nat) {
    forall i: nat | v < i <= v + count :: Counter(a, i) == Counter(b, i)
  }

  lemma {:induction false} OwnCounters(s: Stmt, n: nat, v: nat, k: nat, a: map<nat, nat>, b: map<nat, nat>)
    requires n < k <= n + Yields(s)
    requires Agree(a, b, v, Repeats(s))
    ensures Rest(s, n, v, k, a) == Rest(s, n, v, k, b)
    ensures Live(s, n, v, k, a) == Live(s, n, v, k, b)
    decreases s
  {
    match s
    case Forever(body) =>
      if k > n + 1 {
        OwnCountersIn(body, n + 1, v, k, a, b);
      }
    case Repeat(_, body) =>
      if k > n + 1 {
        OwnCountersIn(body, n + 1, v + 1, k, a, b);
      }
    case Loop(_, _, body) =>
      if k > n + 1 {
        OwnCountersIn(body, n + 1, v, k, a, b);
      }
    case If(_, body, orelse) =>
      if k <= n + YieldsIn(body) {
        OwnCountersIn(body, n, v, k, a, b);
      } else {
        OwnCountersIn(orelse, n + YieldsIn(body), v + RepeatsIn(body), k, a, b);
      }
    case _ =>
  }

  lemma {:induction false} OwnCountersIn(body: seq<Stmt>, n: nat, v: nat, k: nat, a: map<nat, nat>, b: map<nat, nat>)
    requires n < k <= n + YieldsIn(body)
    requires Agree(a, b, v, RepeatsIn(body))
    ensures RestIn(body, n, v, k, a) == RestIn(body, n, v, k, b)
    ensures LiveIn(body, n, v, k, a) == LiveIn(body, n, v, k, b)
    decreases body
  {
    if k <= n + Yields(body[0]) {
      OwnCounters(body[0], n, v, k, a, b);
    } else {
      OwnCountersIn(body[1..], n + Yields(body[0]), v + Repeats(body[0]), k, a, b);
    }
  }

  lemma {:induction false} CounterBaseMonotone(whens: seq<seq<Stmt>>, v: nat, i: nat, j: nat)
    requires i <= j <= |whens|
    ensures CounterBase(whens, v, i) <= CounterBase(whens, v, j)
    decreases j
  {
    if i < j {
      CounterBaseMonotone(whens, v, i, j - 1);
    }
  }

  // ---- the two schedulers -------------------------------------------------

  datatype CTask = CTask(state: nat, until: int)

  datatype CSystem = CSystem(tasks: seq<CTask>, counters: map<nat, nat>, world: World)

  /** From task `i` to the end of one turn of `for (;;) { bw_task0(); bw_task1(); ... }`. */
  function CPass(t: Target, m: Machine, whens: seq<seq<Stmt>>, v: nat, i: nat, c: CSystem): (r: CSystem)
    requires Sound(t)
    requires i <= |whens| == |c.tasks|
    ensures |r.tasks| == |whens|
    decreases |whens| - i
  {
    if i == |whens| then c
    else
      var code := LowerAll(whens[i], 0, CounterBase(whens, v, i));
      var cs := Dispatch(t, m, code, CState(c.tasks[i].state, c.tasks[i].until, c.counters, c.world));
      CPass(t, m, whens, v, i + 1, CSystem(c.tasks[i := CTask(cs.state, cs.until)], cs.counters, cs.world))
  }

  /** `_tasks` lists generators by number; `gens` is where each one stands. */
  datatype PySystem = PySystem(tasks: seq<nat>, gens: seq<Gen>, world: World)

  function Remove(tasks: seq<nat>, i: nat): seq<nat> {
    if tasks == [] then [] else if tasks[0] == i then tasks[1..] else [tasks[0]] + Remove(tasks[1..], i)
  }

  /** One `for _t in tuple(_tasks)`: `snapshot` is what is left of the copy. */
  function PyPass(t: Target, m: Machine, budget: nat, snapshot: seq<nat>, p: PySystem): (r: PySystem)
    requires Sound(t)
    requires forall k | 0 <= k < |snapshot| :: snapshot[k] < |p.gens|
    ensures |r.gens| == |p.gens|
    decreases |snapshot|
  {
    if snapshot == [] then p
    else
      var i := snapshot[0];
      var (gen, w) := Resume(t, m, budget, p.gens[i], p.world);
      PyPass(t, m, budget, snapshot[1..],
             PySystem(if gen.Finished? then Remove(p.tasks, i) else p.tasks, p.gens[i := gen], w))
  }

  /** The generators numbered `i` and up that have not ended, in order. */
  function AliveFrom(gens: seq<Gen>, i: nat): (r: seq<nat>)
    requires i <= |gens|
    ensures forall k | 0 <= k < |r| :: i <= r[k] < |gens|
    decreases |gens| - i
  {
    if i == |gens| then []
    else
      var rest := AliveFrom(gens, i + 1);
      if gens[i].Alive? then [i] + rest else rest
  }

  lemma {:induction false} RemoveLater(i: nat, rest: seq<nat>, j: nat)
    requires i != j
    ensures Remove([i] + rest, j) == [i] + Remove(rest, j)
  {
    assert ([i] + rest)[1..] == rest;
  }

  lemma {:induction false} RemoveFirst(i: nat, rest: seq<nat>)
    ensures Remove([i] + rest, i) == rest
  {
    assert ([i] + rest)[1..] == rest;
  }

  lemma {:induction false} AliveFromNext(gens: seq<Gen>, i: nat)
    requires i < |gens|
    ensures AliveFrom(gens, i) == if gens[i].Alive? then [i] + AliveFrom(gens, i + 1) else AliveFrom(gens, i + 1)
  {
  }

  lemma {:induction false} AliveFromOne(gens: seq<Gen>, i: nat, j: nat, gen: Gen)
    requires i <= j < |gens|
    requires gens[j].Alive?
    ensures AliveFrom(gens[j := gen], i) ==
            if gen.Alive? then AliveFrom(gens, i) else Remove(AliveFrom(gens, i), j)
    decreases j - i
  {
    hide AliveFrom, Remove;
    var gens1 := gens[j := gen];
    var rest := AliveFrom(gens, i + 1);
    AliveFromNext(gens, i);
    AliveFromNext(gens1, i);
    if i == j {
      RemoveFirst(j, rest);
      AliveFromSame(gens, gens1, j + 1);
    } else {
      AliveFromOne(gens, i + 1, j, gen);
      RemoveLater(i, rest, j);
    }
  }

  lemma {:induction false} AliveFromSame(a: seq<Gen>, b: seq<Gen>, i: nat)
    requires i <= |a| == |b|
    requires a[i..] == b[i..]
    ensures AliveFrom(a, i) == AliveFrom(b, i)
    decreases |a| - i
  {
    if i < |a| {
      assert a[i] == a[i..][0] == b[i..][0] == b[i];
      assert a[i + 1..] == a[i..][1..] == b[i..][1..] == b[i + 1..];
      AliveFromSame(a, b, i + 1);
    }
  }

  // ---- the two systems side by side ---------------------------------------

  ghost predicate Fits(whens: seq<seq<Stmt>>, budget: nat) {
    forall i | 0 <= i < |whens| :: YieldsIn(whens[i]) < STOPPED && budget >= Budget(whens[i])
  }

  ghost predicate AlikeAt(whens: seq<seq<Stmt>>, v: nat, c: CSystem, p: PySystem, i: nat)
    requires i < |whens| == |c.tasks| == |p.gens|
  {
    Alike(whens[i], CounterBase(whens, v, i), c.tasks[i].state, c.tasks[i].until, c.counters, p.gens[i])
  }

  ghost predicate Together(whens: seq<seq<Stmt>>, v: nat, c: CSystem, p: PySystem) {
    && |whens| == |c.tasks| == |p.gens|
    && c.world == p.world
    && p.tasks == AliveFrom(p.gens, 0)
    && forall i | 0 <= i < |whens| :: AlikeAt(whens, v, c, p, i)
  }

  /** One task's turn keeps the two systems together. */
  lemma {:induction false} SameTurn(t: Target, m: Machine, whens: seq<seq<Stmt>>, v: nat, budget: nat, i: nat,
                                    c: CSystem, p: PySystem)
    requires Sound(t)
    requires Fits(whens, budget) && Together(whens, v, c, p) && i < |whens|
    ensures var base := CounterBase(whens, v, i);
            var cs := Dispatch(t, m, LowerAll(whens[i], 0, base), CState(c.tasks[i].state, c.tasks[i].until, c.counters, c.world));
            var (gen, w) := Resume(t, m, budget, p.gens[i], p.world);
            && Together(whens, v, CSystem(c.tasks[i := CTask(cs.state, cs.until)], cs.counters, cs.world),
                        PySystem(if p.gens[i].Alive? && gen.Finished? then Remove(p.tasks, i) else p.tasks, p.gens[i := gen], w))
    ensures Returns(t, m, budget, p.gens[i], p.world)
  {
    hide Dispatch, Returns, Resume, LowerAll, RestIn, LiveIn, EmitScript, Remove, AliveFrom;
    var base := CounterBase(whens, v, i);
    var cs0 := CState(c.tasks[i].state, c.tasks[i].until, c.counters, c.world);
    var cs := Dispatch(t, m, LowerAll(whens[i], 0, base), cs0);
    var (gen, w) := Resume(t, m, budget, p.gens[i], p.world);
    assert AlikeAt(whens, v, c, p, i);
    SameDispatch(t, m, whens[i], base, cs0, p.gens[i], budget);
    var c1 := CSystem(c.tasks[i := CTask(cs.state, cs.until)], cs.counters, cs.world);
    var gens1 := p.gens[i := gen];
    var p1 := PySystem(if p.gens[i].Alive? && gen.Finished? then Remove(p.tasks, i) else p.tasks, gens1, w);
    if p.gens[i].Alive? {
      AliveFromOne(p.gens, 0, i, gen);
    } else {
      FinishedResume(t, m, budget, p.gens[i], p.world);
      assert gens1 == p.gens;
    }
    forall j | 0 <= j < |whens| ensures AlikeAt(whens, v, c1, p1, j) {
      assert AlikeAt(whens, v, c, p, j);
      if j != i {
        OtherTask(whens, v, i, j, c.counters, cs.counters);
        if 0 < c.tasks[j].state <= YieldsIn(whens[j]) {
          OwnCountersIn(whens[j], 0, CounterBase(whens, v, j), c.tasks[j].state, c.counters, cs.counters);
        }
      }
    }
  }

  lemma {:induction false} FinishedResume(t: Target, m: Machine, budget: nat, gen: Gen, w: World)
    requires Sound(t) && gen.Finished?
    ensures Resume(t, m, budget, gen, w) == (gen, w)
  {
  }

  lemma {:induction false} BasesApart(whens: seq<seq<Stmt>>, v: nat, i: nat, j: nat)
    requires i < j < |whens|
    ensures CounterBase(whens, v, i) + RepeatsIn(whens[i]) <= CounterBase(whens, v, j)
  {
    assert CounterBase(whens, v, i + 1) == CounterBase(whens, v, i) + RepeatsIn(whens[i]);
    CounterBaseMonotone(whens, v, i + 1, j);
  }

  lemma {:induction false} OtherTask(whens: seq<seq<Stmt>>, v: nat, i: nat, j: nat, a: map<nat, nat>, b: map<nat,
                                     nat>)
    requires i < |whens| && j < |whens| && i != j
    requires Frame(a, b, CounterBase(whens, v, i), RepeatsIn(whens[i]))
    ensures Agree(a, b, CounterBase(whens, v, j), RepeatsIn(whens[j]))
  {
    BasesApart(whens, v, if i < j then i else j, if i < j then j else i);
    OutsideFrame(a, b, CounterBase(whens, v, i), RepeatsIn(whens[i]), CounterBase(whens, v, j), RepeatsIn(whens[j]));
  }

  lemma {:induction false} OutsideFrame(a: map<nat, nat>, b: map<nat, nat>, v: nat, count: nat, v1: nat, count1: nat)
    requires Frame(a, b, v, count)
    requires v + count <= v1 || v1 + count1 <= v
    ensures Agree(a, b, v1, count1)
  {
  }

  lemma {:induction false} SamePassFrom(t: Target, m: Machine, whens: seq<seq<Stmt>>, v: nat, budget: nat, i: nat,
                                        c: CSystem, p: PySystem)
    requires Sound(t)
    requires Fits(whens, budget) && Together(whens, v, c, p) && i <= |whens|
    ensures Together(whens, v, CPass(t, m, whens, v, i, c), PyPass(t, m, budget, AliveFrom(p.gens, i), p))
    decreases |whens| - i
  {
    hide Dispatch, Resume, LowerAll, Remove, AlikeAt, CounterBase;
    if i == |whens| {
      assert AliveFrom(p.gens, i) == [];
    } else {
      SameTurn(t, m, whens, v, budget, i, c, p);
      var base := CounterBase(whens, v, i);
      var cs := Dispatch(t, m, LowerAll(whens[i], 0, base), CState(c.tasks[i].state, c.tasks[i].until, c.counters, c.world));
      var c1 := CSystem(c.tasks[i := CTask(cs.state, cs.until)], cs.counters, cs.world);
      var (gen, w) := Resume(t, m, budget, p.gens[i], p.world);
      var p1 := PySystem(if p.gens[i].Alive? && gen.Finished? then Remove(p.tasks, i) else p.tasks, p.gens[i := gen], w);
      SamePassFrom(t, m, whens, v, budget, i + 1, c1, p1);
      AliveFromSame(p.gens, p1.gens, i + 1);
      var snapshot := AliveFrom(p.gens, i);
      if p.gens[i].Alive? {
        assert snapshot[1..] == AliveFrom(p.gens, i + 1);
        assert PyPass(t, m, budget, snapshot, p) == PyPass(t, m, budget, snapshot[1..], p1);
      } else {
        FinishedResume(t, m, budget, p.gens[i], p.world);
        assert p.gens[i := gen] == p.gens;
        assert p1 == p;
      }
    }
  }

  // ---- whole runs ---------------------------------------------------------

  function CStart(whens: seq<seq<Stmt>>, w: World): CSystem {
    CSystem(seq(|whens|, i => CTask(0, 0)), map[], w)
  }

  function PyStart(whens: seq<seq<Stmt>>, w: World): PySystem {
    var gens := seq(|whens|, i requires 0 <= i < |whens| => Alive(EmitScript(whens[i]), 0));
    PySystem(seq(|whens|, i => i), gens, w)
  }

  function CRun(t: Target, m: Machine, whens: seq<seq<Stmt>>, v: nat, passes: nat, w: World): (c: CSystem)
    requires Sound(t)
    ensures |c.tasks| == |whens|
  {
    if passes == 0 then CStart(whens, w) else CPass(t, m, whens, v, 0, CRun(t, m, whens, v, passes - 1, w))
  }

  predicate InList(p: PySystem) {
    forall k | 0 <= k < |p.tasks| :: p.tasks[k] < |p.gens|
  }

  /** `while _tasks: for _t in tuple(_tasks): ...`; with no task left nothing happens any more. */
  function PyRun(t: Target, m: Machine, budget: nat, passes: nat, p: PySystem): (r: PySystem)
    requires Sound(t)
    ensures |r.gens| == |p.gens|
  {
    if passes == 0 then p
    else
      var q := PyRun(t, m, budget, passes - 1, p);
      if InList(q) then PyPass(t, m, budget, q.tasks, q) else q
  }

  lemma {:induction false} AliveFromAll(gens: seq<Gen>, i: nat)
    requires i <= |gens|
    requires forall j | 0 <= j < |gens| :: gens[j].Alive?
    ensures AliveFrom(gens, i) == seq(|gens| - i, k requires 0 <= k => i + k)
    decreases |gens| - i
  {
    if i < |gens| {
      AliveFromAll(gens, i + 1);
    }
  }

  lemma {:induction false} StartTogether(whens: seq<seq<Stmt>>, v: nat, w: World)
    ensures Together(whens, v, CStart(whens, w), PyStart(whens, w))
  {
    var c, p := CStart(whens, w), PyStart(whens, w);
    AliveFromAll(p.gens, 0);
    assert p.tasks == AliveFrom(p.gens, 0);
    forall i | 0 <= i < |whens| ensures AlikeAt(whens, v, c, p, i) {
    }
  }

  /** After any number of passes the C tasks and the generators stand together,
      on any machine whose two sides count and tell time in the same words. */
  lemma {:induction false} SameRun(t: Target, m: Machine, whens: seq<seq<Stmt>>, v: nat, budget: nat, passes: nat,
                                   w: World)
    requires Sound(t)
    requires Fits(whens, budget)
    ensures Together(whens, v, CRun(t, m, whens, v, passes, w), PyRun(t, m, budget, passes, PyStart(whens, w)))
    decreases passes
  {
    if passes == 0 {
      StartTogether(whens, v, w);
    } else {
      SameRun(t, m, whens, v, budget, passes - 1, w);
      var c, p := CRun(t, m, whens, v, passes - 1, w), PyRun(t, m, budget, passes - 1, PyStart(whens, w));
      SamePassFrom(t, m, whens, v, budget, 0, c, p);
    }
  }
}
