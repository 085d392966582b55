/** The compiled forms do what the script means. */
module MeaningKept {
  import opened Script
  import opened Machine
  import opened Structured
  import opened TaskCode
  import opened Generator
  import opened Scheduler
  import opened Targets
  import opened Meaning

  // ---- what is left to do, as generator code ------------------------------

  function FlowOf(work: Work): seq<Flow> {
    match work
    case One(s) => Emit(s)
    case Till(_) => [WhilePending([Yield])]
    case Rounds(left, body) => [ForLeft(left, Suite(EmitAll(body)) + [Yield])]
    case Breath => [Yield]
  }

  function Flows(todo: seq<Work>): seq<Flow> {
    if todo == [] then [] else FlowOf(todo[0]) + Flows(todo[1..])
  }

  lemma {:induction false} FlowsCons(work: Work, rest: seq<Work>)
    ensures Flows([work] + rest) == FlowOf(work) + Flows(rest)
  {
    assert ([work] + rest)[1..] == rest;
  }

  lemma {:induction false} FlowsConcat(a: seq<Work>, b: seq<Work>)
    ensures Flows(a + b) == Flows(a) + Flows(b)
    decreases a
  {
    hide FlowOf;
    if a == [] {
      assert a + b == b;
    } else {
      assert (a + b)[0] == a[0] && (a + b)[1..] == a[1..] + b;
      FlowsConcat(a[1..], b);
    }
  }

  lemma {:induction false} FlowsEach(body: seq<Stmt>)
    ensures Flows(Each(body)) == EmitAll(body)
    decreases body
  {
    hide Emit;
    if body != [] {
      assert Each(body)[1..] == Each(body[1..]);
      FlowsEach(body[1..]);
    }
  }

  /** A `pass` that the meaning knows nothing of. */
  function Idle(body: seq<Stmt>): seq<Flow> {
    if body == [] then [Pass] else []
  }

  /** A body in front of what comes after it. */
  lemma {:induction false} FlowsBody(body: seq<Stmt>, rest: seq<Work>)
    ensures Idle(body) + Flows(Each(body) + rest) == Suite(EmitAll(body)) + Flows(rest)
  {
    FlowsConcat(Each(body), rest);
    FlowsEach(body);
    if body == [] {
      assert [Pass] + ([] + Flows(rest)) == [Pass] + Flows(rest);
    } else {
      assert EmitAll(body) != [] by {
        assert |Emit(body[0])| > 0;
      }
      assert [] + (EmitAll(body) + Flows(rest)) == EmitAll(body) + Flows(rest);
    }
  }

  /** Only the first thing to do can be a wait under way, and its deadline is the generator's. */
  ghost predicate TillFirst(todo: seq<Work>, due: int) {
    (todo != [] && todo[0].Till? ==> todo[0].due == due) && forall k | 0 < k < |todo| :: !todo[k].Till?
  }

  predicate Settled(pre: seq<Flow>) {
    pre == [] || pre == [Pass]
  }

  /** The generator stands where the meaning does, `pre` aside. */
  ghost predicate Shape(todo: seq<Work>, pre: seq<Flow>, code: seq<Flow>, due: int, tail: seq<Flow>) {
    code == pre + (Flows(todo) + tail) && TillFirst(todo, due)
  }

  // ---- one moment ---------------------------------------------------------

  lemma {:induction false} NoTillEach(body: seq<Stmt>)
    ensures forall k | 0 <= k < |Each(body)| :: !Each(body)[k].Till?
  {
    if body != [] {
      NoTillEach(body[1..]);
    }
  }

  lemma {:induction false} TillFirstBody(body: seq<Stmt>, rest: seq<Work>, due: int)
    requires forall k | 0 <= k < |rest| :: !rest[k].Till?
    ensures TillFirst(Each(body) + rest, due)
  {
    NoTillEach(body);
  }

  /** Where the generator is after a step, against where the meaning is. */
  ghost predicate Kept(d: Moment, pre: seq<Flow>, r: Config, tail: seq<Flow>) {
    && r.world == d.world
    && match r
       case Over(_) => d.todo == [] && !d.pauses
       case Paused(code, due, _) => d.pauses && pre == [] && Shape(d.todo, [], code, due, tail)
       case Go(code, due, _) =>
         Shape(d.todo, pre, code, due, tail) && if d.pauses then pre == [Yield] else Settled(pre)
  }

  lemma {:induction false} HeadIs(todo: seq<Work>, code: seq<Flow>, due: int, tail: seq<Flow>, f: Flow)
    requires todo != [] && Shape(todo, [], code, due, tail) && FlowOf(todo[0]) == [f]
    ensures code == [f] + (Flows(todo[1..]) + tail)
  {
    hide FlowOf;
    Regroup3([], Flows(todo) + tail, []);
    Regroup3([f], Flows(todo[1..]), tail);
  }

  lemma {:induction false} Regroup3(a: seq<Flow>, b: seq<Flow>, c: seq<Flow>)
    ensures a + b + c == a + (b + c)
    ensures a == [] ==> a + b == b
    ensures c == [] ==> b + c == b
  {
  }

  /** Entering a loop's body, with the loop to come again. */
  lemma {:induction false} LoopShape(body: seq<Stmt>, back: seq<Work>, rest: seq<Work>, again: Flow, due: int,
                                     tail: seq<Flow>)
    requires |back| == 2 && back[0].Breath? && !back[1].Till? && FlowOf(back[1]) == [again]
    requires forall k | 0 <= k < |rest| :: !rest[k].Till?
    ensures Shape(Each(body) + (back + rest), Idle(body),
                  Suite(EmitAll(body)) + [Yield] + [again] + (Flows(rest) + tail), due, tail)
  {
    hide Emit, EmitAll, Suite;
    var code, after := Suite(EmitAll(body)), Flows(rest);
    assert back + rest == [Breath] + ([back[1]] + rest);
    FlowsCons(Breath, [back[1]] + rest);
    FlowsCons(back[1], rest);
    FlowsBody(body, back + rest);
    TillFirstBody(body, back + rest, due);
    var inner := Flows(Each(body) + (back + rest));
    assert Idle(body) + inner == code + ([Yield] + ([again] + after));
    assert code + [Yield] + [again] + (after + tail) == code + ([Yield] + ([again] + after)) + tail;
    Regroup3(Idle(body), inner, tail);
  }

  lemma {:induction false} BranchShape(body: seq<Stmt>, rest: seq<Work>, due: int, tail: seq<Flow>)
    requires forall k | 0 <= k < |rest| :: !rest[k].Till?
    ensures Shape(Each(body) + rest, Idle(body), Suite(EmitAll(body)) + (Flows(rest) + tail), due, tail)
    ensures body == [] ==> Shape(Each(body) + rest, [], Flows(rest) + tail, due, tail)
  {
    hide Emit, EmitAll, Suite;
    FlowsBody(body, rest);
    TillFirstBody(body, rest, due);
    Regroup3(Suite(EmitAll(body)), Flows(rest), tail);
    Regroup3(Idle(body), Flows(Each(body) + rest), tail);
    Regroup3([], Flows(rest) + tail, []);
    if body == [] {
      assert Each(body) + rest == rest;
    }
  }

  lemma {:induction false} RestShape(rest: seq<Work>, due: int, tail: seq<Flow>)
    requires forall k | 0 <= k < |rest| :: !rest[k].Till?
    ensures Shape(rest, [], Flows(rest) + tail, due, tail)
  {
    Regroup3([], Flows(rest) + tail, []);
  }

  /** A step at a loop that is not an endless run through its own head. */
  lemma {:induction false} LoopMoment(t: Target, m: Machine, todo: seq<Work>, code: seq<Flow>, due: int,
                                      tail: seq<Flow>, w: World) returns (pre: seq<Flow>)
    requires Sound(t) && todo != [] && Shape(todo, [], code, due, tail)
    requires todo[0].Rounds? || (todo[0].One? && (todo[0].s.Forever? || todo[0].s.Loop?))
    ensures Kept(Proceed(t, m, todo, w), pre, Step(t, m, Go(code, due, w)), tail)
  {
    hide EmitAll, Suite, Flows, Step, Shape;
    var rest := todo[1..];
    NoTillAfter(todo, code, due, tail);
    var f := FlowOf(todo[0])[0];
    HeadIs(todo, code, due, tail, f);
    StepHead(t, m, f, Flows(rest) + tail, due, w);
    RestShape(rest, due, tail);
    pre := [];
    match todo[0]
    case One(s) =>
      assert [Breath] + todo == [Breath, todo[0]] + rest;
      LoopShape(s.body, [Breath, todo[0]], rest, f, due, tail);
      pre := if s.Forever? || m.test(s.cond, w.globals, w.env).0 != s.until then Idle(s.body) else [];
    case Rounds(left, body) =>
      if left > 0 {
        pre := Idle(body);
        LoopShape(body, [Breath, Rounds(left - 1, body)], rest, ForLeft(left - 1, Suite(EmitAll(body)) + [Yield]), due, tail);
      }
  }

  lemma {:induction false} NoTillAfter(todo: seq<Work>, code: seq<Flow>, due: int, tail: seq<Flow>)
    requires todo != [] && Shape(todo, [], code, due, tail)
    ensures forall k | 0 <= k < |todo[1..]| :: !todo[1..][k].Till?
  {
    hide Flows;
  }

  lemma {:induction false} ConsShape(work: Work, rest: seq<Work>, due: int, tail: seq<Flow>)
    requires (work.Till? ==> work.due == due) && forall k | 0 <= k < |rest| :: !rest[k].Till?
    ensures Shape([work] + rest, [], FlowOf(work) + (Flows(rest) + tail), due, tail)
  {
    hide FlowOf;
    FlowsCons(work, rest);
    Regroup3(FlowOf(work), Flows(rest), tail);
    Regroup3([], Flows([work] + rest) + tail, []);
  }

  lemma {:induction false} StillShape(todo: seq<Work>, code: seq<Flow>, due: int, tail: seq<Flow>)
    requires Shape(todo, [], code, due, tail)
    ensures Shape(todo, [Yield], [Yield] + code, due, tail)
  {
    hide Flows;
    Regroup3([], Flows(todo) + tail, []);
  }

  lemma {:induction false} StartMoment(t: Target, m: Machine, todo: seq<Work>, code: seq<Flow>, due: int,
                                       tail: seq<Flow>, w: World)
    requires Sound(t) && todo != [] && Shape(todo, [], code, due, tail)
    requires todo[0].One? && todo[0].s.Wait?
    ensures Kept(Proceed(t, m, todo, w), [], Step(t, m, Go(code, due, w)), tail)
  {
    hide Step, Word, Shape, Flows;
    var n, rest := todo[0].s.amount, todo[1..];
    var after := Flows(rest) + tail;
    NoTillAfter(todo, code, due, tail);
    WaitCode(todo, code, due, tail);
    StepHead(t, m, SetDeadline(n), [WhilePending([Yield])] + after, due, w);
    var d := Proceed(t, m, todo, w);
    ConsShape(d.todo[0], rest, d.todo[0].due, tail);
  }

  lemma {:induction false} WaitCode(todo: seq<Work>, code: seq<Flow>, due: int, tail: seq<Flow>)
    requires todo != [] && Shape(todo, [], code, due, tail)
    requires todo[0].One? && todo[0].s.Wait?
    ensures code == [SetDeadline(todo[0].s.amount)] + ([WhilePending([Yield])] + (Flows(todo[1..]) + tail))
  {
    var start, poll, rest := [SetDeadline(todo[0].s.amount)], [WhilePending([Yield])], Flows(todo[1..]);
    Regroup3([], Flows(todo) + tail, []);
    assert Emit(todo[0].s) == start + poll;
    assert start + poll + rest + tail == start + (poll + (rest + tail));
  }

  lemma {:induction false} PollMoment(t: Target, m: Machine, todo: seq<Work>, code: seq<Flow>, due: int,
                                      tail: seq<Flow>, w: World) returns (pre: seq<Flow>)
    requires Sound(t) && todo != [] && Shape(todo, [], code, due, tail)
    requires todo[0].Till? || (todo[0].One? && todo[0].s.WaitUntil?)
    ensures Kept(Proceed(t, m, todo, w), pre, Step(t, m, Go(code, due, w)), tail)
  {
    hide Step, Pending, Shape, Flows;
    var rest := todo[1..];
    var after := Flows(rest) + tail;
    NoTillAfter(todo, code, due, tail);
    DueIs(todo, code, due, tail);
    RestShape(rest, due, tail);
    StillShape(todo, code, due, tail);
    pre := if Proceed(t, m, todo, w).pauses then [Yield] else [];
    var f := FlowOf(todo[0])[0];
    HeadIs(todo, code, due, tail, f);
    StepHead(t, m, f, after, due, w);
    Regroup3([Yield], [f], after);
  }

  lemma {:induction false} DueIs(todo: seq<Work>, code: seq<Flow>, due: int, tail: seq<Flow>)
    requires todo != [] && Shape(todo, [], code, due, tail)
    ensures todo[0].Till? ==> todo[0].due == due
  {
    hide Flows;
  }

  lemma {:induction false} PlainMoment(t: Target, m: Machine, todo: seq<Work>, code: seq<Flow>, due: int,
                                       tail: seq<Flow>, w: World) returns (pre: seq<Flow>)
    requires Sound(t) && todo != [] && Shape(todo, [], code, due, tail)
    requires todo[0].Breath? || (todo[0].One? && (todo[0].s.Act? || todo[0].s.Repeat? || todo[0].s.If? || todo[0].s.Stop?))
    ensures Kept(Proceed(t, m, todo, w), pre, Step(t, m, Go(code, due, w)), tail)
  {
    hide EmitAll, Suite, Step, Latch, Shape, Flows;
    var rest := todo[1..];
    NoTillAfter(todo, code, due, tail);
    RestShape(rest, due, tail);
    var f := FlowOf(todo[0])[0];
    HeadIs(todo, code, due, tail, f);
    StepHead(t, m, f, Flows(rest) + tail, due, w);
    pre := [];
    if todo[0].One? {
      match todo[0].s
      case Act(_) =>
      case Repeat(n, body) => ConsShape(Rounds(Latch(t, m.number(n, w.globals, w.env).0), body), rest, due, tail);
      case If(c, body, orelse) =>
        var (b, e) := m.test(c, w.globals, w.env);
        BranchShape(if b then body else orelse, rest, due, tail);
        pre := if !b && orelse == [] then [] else Idle(if b then body else orelse);
        Regroup3([], Flows(rest) + tail, []);
      case Stop =>
    }
  }

  lemma {:induction false} MomentKept(t: Target, m: Machine, todo: seq<Work>, code: seq<Flow>, due: int,
                                      tail: seq<Flow>, w: World) returns (pre: seq<Flow>)
    requires Sound(t) && todo != [] && Shape(todo, [], code, due, tail)
    ensures Kept(Proceed(t, m, todo, w), pre, Step(t, m, Go(code, due, w)), tail)
  {
    hide Shape, Kept, Proceed, Step;
    match todo[0]
    case Till(_) => pre := PollMoment(t, m, todo, code, due, tail, w);
    case Rounds(_, _) => pre := LoopMoment(t, m, todo, code, due, tail, w);
    case Breath => pre := PlainMoment(t, m, todo, code, due, tail, w);
    case One(s) =>
      if s.Wait? {
        pre := [];
        StartMoment(t, m, todo, code, due, tail, w);
      } else if s.WaitUntil? {
        pre := PollMoment(t, m, todo, code, due, tail, w);
      } else if s.Forever? || s.Loop? {
        pre := LoopMoment(t, m, todo, code, due, tail, w);
      } else {
        pre := PlainMoment(t, m, todo, code, due, tail, w);
      }
  }

  // ---- one turn -----------------------------------------------------------

  /** The bare yield of a script that would not yield otherwise. */
  predicate Tail(tail: seq<Flow>) {
    tail == [] || tail == [Yield]
  }

  /** A generator between turns and the script's place. */
  ghost predicate GenMeans(todo: seq<Work>, gen: Gen) {
    if gen.Finished? then todo == []
    else exists pre, tail | Settled(pre) && Tail(tail) :: Shape(todo, pre, gen.code, gen.due, tail)
  }

  lemma {:induction false} GenMeansIs(todo: seq<Work>, pre: seq<Flow>, gen: Gen, tail: seq<Flow>)
    requires gen.Alive? && Settled(pre) && Tail(tail) && Shape(todo, pre, gen.code, gen.due, tail)
    ensures GenMeans(todo, gen)
  {
  }

  /** The generator at the end of a turn. */
  function Rested(c: Config): Gen
    requires !c.Go?
  {
    if c.Over? then Finished else Alive(c.code, c.due)
  }

  lemma {:induction false} StepsFirst(t: Target, m: Machine, n: nat, c: Config)
    requires Sound(t) && n > 0
    ensures Steps(t, m, n, c) == Steps(t, m, n - 1, Step(t, m, c))
    ensures !Step(t, m, c).Go? ==> Steps(t, m, n, c) == Step(t, m, c)
  {
    hide Step;
    if !Step(t, m, c).Go? {
      StepsSettled(t, m, n - 1, Step(t, m, c));
    }
  }

  /** A leading `pass` or `yield`. */
  lemma {:induction false} StepBare(t: Target, m: Machine, rest: seq<Flow>, due: int, w: World)
    requires Sound(t)
    ensures Step(t, m, Go([Pass] + rest, due, w)) == Go(rest, due, w)
    ensures Step(t, m, Go([Yield] + rest, due, w)) == Paused(rest, due, w)
  {
    assert ([Pass] + rest)[1..] == rest && ([Yield] + rest)[1..] == rest;
  }

  lemma {:induction false} PreStep(t: Target, m: Machine, todo: seq<Work>, pre: seq<Flow>, code: seq<Flow>, due: int,
                                   tail: seq<Flow>, w: World)
    requires Sound(t) && Shape(todo, pre, code, due, tail) && (pre == [Pass] || pre == [Yield])
    ensures var code1 := Flows(todo) + tail;
            Step(t, m, Go(code, due, w)) == if pre == [Pass] then Go(code1, due, w) else Paused(code1, due, w)
    ensures Shape(todo, [], Flows(todo) + tail, due, tail)
  {
    hide Flows, Step;
    StepHead(t, m, pre[0], Flows(todo) + tail, due, w);
    StepBare(t, m, Flows(todo) + tail, due, w);
    Regroup3([], Flows(todo) + tail, []);
  }

  /** Nothing is left but the bare yield, if that. */
  lemma {:induction false} LastStep(t: Target, m: Machine, code: seq<Flow>, due: int, tail: seq<Flow>, w: World)
    requires Sound(t) && Tail(tail) && Shape([], [], code, due, tail)
    ensures var r := Step(t, m, Go(code, due, w)); !r.Go? && r.world == w && GenMeans([], Rested(r))
  {
    assert code == tail;
    if tail == [Yield] {
      StepHead(t, m, Yield, [], due, w);
      assert tail == [Yield] + [];
      assert Shape([], [], [], due, []);
      GenMeansIs([], [], Alive([], due), []);
    }
  }

  lemma {:induction false} TurnKept(t: Target, m: Machine, n: nat, todo: seq<Work>, pre: seq<Flow>, code: seq<Flow>,
                                    due: int, tail: seq<Flow>, w: World)
    requires Sound(t) && Settled(pre) && Tail(tail) && Shape(todo, pre, code, due, tail)
    requires !Steps(t, m, n, Go(code, due, w)).Go?
    ensures var r := Steps(t, m, n, Go(code, due, w));
            var (todo1, w1, whole) := Turn(t, m, n, todo, w);
            whole && w1 == r.world && GenMeans(todo1, Rested(r))
    decreases n
  {
    hide Flows, Shape, GenMeans, Step, Proceed;
    var c := Go(code, due, w);
    if n == 0 {
      StepsZero(t, m, c);
      assert false;
    }
    StepsFirst(t, m, n, c);
    if pre == [Pass] {
      PreStep(t, m, todo, pre, code, due, tail, w);
      TurnKept(t, m, n - 1, todo, [], Flows(todo) + tail, due, tail, w);
      TurnMore(t, m, n - 1, todo, w);
    } else if todo == [] {
      LastStep(t, m, code, due, tail, w);
    } else {
      MomentTurn(t, m, n, todo, code, due, tail, w);
    }
  }

  lemma {:induction false} MomentTurn(t: Target, m: Machine, n: nat, todo: seq<Work>, code: seq<Flow>, due: int,
                                      tail: seq<Flow>, w: World)
    requires Sound(t) && Tail(tail) && Shape(todo, [], code, due, tail) && todo != []
    requires n > 0 && !Steps(t, m, n, Go(code, due, w)).Go?
    ensures var r := Steps(t, m, n, Go(code, due, w));
            var (todo1, w1, whole) := Turn(t, m, n, todo, w);
            whole && w1 == r.world && GenMeans(todo1, Rested(r))
    decreases n, 0
  {
    hide Flows, Shape, GenMeans, Step, Proceed, Turn;
    var d := Proceed(t, m, todo, w);
    var pre := MomentKept(t, m, todo, code, due, tail, w);
    var r1 := Step(t, m, Go(code, due, w));
    StepsFirst(t, m, n, Go(code, due, w));
    TurnNext(t, m, n, todo, w);
    if r1.Paused? {
      GenMeansIs(d.todo, [], Rested(r1), tail);
    } else if r1.Over? {
      TurnOver(t, m, n - 1, d.world);
      OverMeans();
    } else if d.pauses {
      PauseLate(t, m, n - 1, d.todo, r1.code, r1.due, tail, r1.world);
    } else {
      TurnKept(t, m, n - 1, d.todo, pre, r1.code, r1.due, tail, r1.world);
    }
  }

  lemma {:induction false} TurnNext(t: Target, m: Machine, n: nat, todo: seq<Work>, w: World)
    requires Sound(t) && todo != [] && n > 0
    ensures var d := Proceed(t, m, todo, w);
            Turn(t, m, n, todo, w) == if d.pauses then (d.todo, d.world, true) else Turn(t, m, n - 1, d.todo, d.world)
  {
    hide Proceed;
  }

  lemma {:induction false} TurnOver(t: Target, m: Machine, n: nat, w: World)
    requires Sound(t)
    ensures Turn(t, m, n, [], w) == ([], w, true)
  {
  }

  lemma {:induction false} OverMeans()
    ensures GenMeans([], Finished)
  {
  }

  /** A poll that found its time not come yields in the step after. */
  lemma {:induction false} PauseLate(t: Target, m: Machine, n: nat, todo: seq<Work>, code: seq<Flow>, due: int,
                                     tail: seq<Flow>, w: World)
    requires Sound(t) && Tail(tail) && Shape(todo, [Yield], code, due, tail)
    requires !Steps(t, m, n, Go(code, due, w)).Go?
    ensures var r := Steps(t, m, n, Go(code, due, w)); r.world == w && GenMeans(todo, Rested(r))
  {
    hide Flows, Shape, GenMeans, Step;
    if n == 0 {
      StepsZero(t, m, Go(code, due, w));
      assert false;
    }
    StepsFirst(t, m, n, Go(code, due, w));
    PreStep(t, m, todo, [Yield], code, due, tail, w);
    GenMeansIs(todo, [], Alive(Flows(todo) + tail, due), tail);
  }

  lemma {:induction false} ResumeKept(t: Target, m: Machine, budget: nat, todo: seq<Work>, gen: Gen, w: World)
    requires Sound(t) && GenMeans(todo, gen) && Returns(t, m, budget, gen, w)
    ensures var (gen1, w1) := Resume(t, m, budget, gen, w);
            var (todo1, w2, whole) := Turn(t, m, budget, todo, w);
            whole && w2 == w1 && GenMeans(todo1, gen1)
  {
    hide Shape, Steps, Proceed;
    if gen.Finished? {
      TurnOver(t, m, budget, w);
    } else {
      var pre, tail :| Settled(pre) && Tail(tail) && Shape(todo, pre, gen.code, gen.due, tail);
      TurnKept(t, m, budget, todo, pre, gen.code, gen.due, tail, w);
    }
  }

  // ---- passes and runs ----------------------------------------------------

  ghost predicate SceneMeans(c: Scene, p: PySystem) {
    && |c.places| == |p.gens| && c.world == p.world && c.whole
    && forall j | 0 <= j < |p.gens| :: GenMeans(c.places[j], p.gens[j])
  }

  lemma {:induction false} PassKept(t: Target, m: Machine, whens: seq<seq<Stmt>>, v: nat, budget: nat, i: nat,
                                    c: CSystem, p: PySystem, scene: Scene)
    requires Sound(t) && Fits(whens, budget) && Together(whens, v, c, p) && i <= |whens|
    requires SceneMeans(scene, p)
    ensures SceneMeans(ScenePass(t, m, budget, i, scene), PyPass(t, m, budget, AliveFrom(p.gens, i), p))
    decreases |whens| - i
  {
    hide Resume, Returns, Dispatch, LowerAll, Remove, AlikeAt, CounterBase, GenMeans, Turn;
    if i == |whens| {
      assert AliveFrom(p.gens, i) == [];
      return;
    }
    SameTurn(t, m, whens, v, budget, i, c, p);
    ResumeKept(t, m, budget, scene.places[i], p.gens[i], p.world);
    var base := CounterBase(whens, v, i);
    var cs := Dispatch(t, m, LowerAll(whens[i], 0, base), CState(c.tasks[i].state, c.tasks[i].until, c.counters, c.world));
    var c1 := CSystem(c.tasks[i := CTask(cs.state, cs.until)], cs.counters, cs.world);
    var (gen, w) := Resume(t, m, budget, p.gens[i], p.world);
    var (todo, w1, whole) := Turn(t, m, budget, scene.places[i], p.world);
    var p1 := PySystem(if p.gens[i].Alive? && gen.Finished? then Remove(p.tasks, i) else p.tasks, p.gens[i := gen], w);
    var scene1 := Scene(scene.places[i := todo], w1, scene.whole && whole);
    PassKept(t, m, whens, v, budget, i + 1, c1, p1, scene1);
    AliveFromSame(p.gens, p1.gens, i + 1);
    var snapshot := AliveFrom(p.gens, i);
    if p.gens[i].Alive? {
      assert snapshot[1..] == AliveFrom(p.gens, i + 1);
      assert PyPass(t, m, budget, snapshot, p) == PyPass(t, m, budget, snapshot[1..], p1);
    } else {
      FinishedResume(t, m, budget, p.gens[i], p.world);
      assert p.gens[i := gen] == p.gens;
      assert p1 == p;
    }
  }

  lemma {:induction false} StartMeans(whens: seq<seq<Stmt>>, i: nat)
    requires i < |whens|
    ensures GenMeans(Each(whens[i]), Alive(EmitScript(whens[i]), 0))
  {
    hide EmitAll, YieldsSomewhere, Suite, Flows;
    var body := whens[i];
    var gen := Alive(EmitScript(body), 0);
    NoTillEach(body);
    FlowsBody(body, []);
    FlowsEach(body);
    assert Each(body) + [] == Each(body) && Flows([]) == [] by {
      assert |Flows([])| == 0 by { NoFlows(); }
    }
    if YieldsSomewhere(EmitAll(body)) {
      assert [] + (EmitAll(body) + []) == EmitAll(body);
      GenMeansIs(Each(body), [], gen, []);
    } else {
      assert Suite(EmitAll(body)) + [] == Suite(EmitAll(body));
      Regroup3(Idle(body), EmitAll(body), [Yield]);
      GenMeansIs(Each(body), Idle(body), gen, [Yield]);
    }
  }

  lemma {:induction false} NoFlows()
    ensures Flows([]) == []
  {
  }

  lemma {:induction false} RunKept(t: Target, m: Machine, whens: seq<seq<Stmt>>, v: nat, budget: nat, passes: nat,
                                   w: World)
    requires Sound(t) && Fits(whens, budget)
    ensures SceneMeans(SceneRun(t, m, budget, whens, passes, w), PyRun(t, m, budget, passes, PyStart(whens, w)))
    decreases passes
  {
    hide ScenePass, PyPass, GenMeans, EmitScript, Each, AlikeAt;
    if passes == 0 {
      forall i | 0 <= i < |whens| ensures GenMeans(Each(whens[i]), Alive(EmitScript(whens[i]), 0)) {
        StartMeans(whens, i);
      }
    } else {
      RunKept(t, m, whens, v, budget, passes - 1, w);
      SameRun(t, m, whens, v, budget, passes - 1, w);
      var c, p := CRun(t, m, whens, v, passes - 1, w), PyRun(t, m, budget, passes - 1, PyStart(whens, w));
      PassKept(t, m, whens, v, budget, 0, c, p, SceneRun(t, m, budget, whens, passes - 1, w));
    }
  }

  /** Any number of scripts, any number of passes: the C program and the
      generator program leave the world as the scripts mean it, and every turn
      ends where the script pauses or is over. */
  lemma {:induction false} ProgramsMeanTheScripts(t: Target, m: Machine, whens: seq<seq<Stmt>>, v: nat, budget: nat,
                                                  passes: nat, w: World)
    requires Sound(t) && Fits(whens, budget)
    ensures var scene := SceneRun(t, m, budget, whens, passes, w);
            && scene.whole
            && CRun(t, m, whens, v, passes, w).world == scene.world
            && PyRun(t, m, budget, passes, PyStart(whens, w)).world == scene.world
  {
    hide GenMeans, AlikeAt;
    RunKept(t, m, whens, v, budget, passes, w);
    SameRun(t, m, whens, v, budget, passes, w);
  }

  /** On real targets, within the reach of their clocks and counters: the C
      program and the program of either board leave the world as the scripts mean
      it on a clock that never wraps. */
  lemma {:induction false} TargetsMeanTheScripts(m: Machine, c: Target, py: Target, whens: seq<seq<Stmt>>, v: nat,
                                                 budget: nat, passes: nat, w: World)
    requires c.C? && Sound(c) && !py.C? && Sound(py) && Fits(whens, budget)
    requires RunMeets(InReach, m, c, budget, passes, PyStart(whens, w))
    requires RunMeets(InReach, m, py, budget, passes, PyStart(whens, w))
    ensures var scene := SceneRun(MicroBit, m, budget, whens, passes, w);
            && scene.whole
            && CRun(c, m, whens, v, passes, w).world == scene.world
            && PyRun(py, m, budget, passes, PyStart(whens, w)).world == scene.world
  {
    hide RunMeets, SceneRun, CRun, PyRun;
    BackEndsAgree(m, c, MicroBit, whens, v, budget, passes, w) by {
      PlainMeets(m, budget, passes, PyStart(whens, w));
    }
    BackEndsAgree(m, c, py, whens, v, budget, passes, w);
    ProgramsMeanTheScripts(MicroBit, m, whens, v, budget, passes, w);
  }

  /** Nothing is asked of a run on a clock that never wraps. */
  lemma {:induction false} PlainMeets(m: Machine, budget: nat, passes: nat, p: PySystem)
    ensures RunMeets(InReach, m, MicroBit, budget, passes, p)
    decreases passes
  {
    hide PassMeets, PyPass;
    if passes > 0 {
      PlainMeets(m, budget, passes - 1, p);
      var q := PyRun(MicroBit, m, budget, passes - 1, p);
      if InList(q) {
        PlainPassMeets(m, budget, q.tasks, q);
      }
    }
  }

  lemma {:induction false} PlainPassMeets(m: Machine, budget: nat, snapshot: seq<nat>, p: PySystem)
    requires forall k | 0 <= k < |snapshot| :: snapshot[k] < |p.gens|
    ensures PassMeets(InReach, m, MicroBit, budget, snapshot, p)
    decreases |snapshot|
  {
    hide Resume, Remove, Meets;
    if snapshot != [] {
      var i := snapshot[0];
      var (gen, w) := Resume(MicroBit, m, budget, p.gens[i], p.world);
      if p.gens[i].Alive? {
        PlainStepsMeet(m, budget, Go(p.gens[i].code, p.gens[i].due, p.world));
      }
      PlainPassMeets(m, budget, snapshot[1..], AfterTurn(p, i, gen, w));
    }
  }

  lemma {:induction false} PlainStepsMeet(m: Machine, n: nat, c: Config)
    ensures Meets(InReach, m, MicroBit, n, c)
    decreases n
  {
    hide Step;
    if n > 0 {
      PlainStepsMeet(m, n - 1, Step(MicroBit, m, c));
    }
  }
}
