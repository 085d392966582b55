/** What the blocking program of a lone script does, against what the script means. */
module LoneMeaning {
  import opened Script
  import opened Machine
  import opened Structured
  import opened Generator
  import opened Blocking
  import opened Scheduler
  import opened LoneScript
  import opened Meaning
  import opened MeaningKept

  predicate Leading(pre: seq<Flow>) {
    Settled(pre) || pre == [Yield]
  }

  /** A generator that is always resumed, and the script's place. */
  ghost predicate Along(todo: seq<Work>, g: Config) {
    match g
    case Over(_) => todo == []
    case Paused(_, _, _) => false
    case Go(code, due, _) => exists pre, tail | Leading(pre) && Tail(tail) :: Shape(todo, pre, code, due, tail)
  }

  lemma {:induction false} AlongIs(todo: seq<Work>, pre: seq<Flow>, code: seq<Flow>, due: int, w: World, tail: seq<Flow>)
    requires Leading(pre) && Tail(tail) && Shape(todo, pre, code, due, tail)
    ensures Along(todo, Go(code, due, w))
  {
  }

  lemma {:induction false} AlongOver(w: World)
    ensures Along([], Over(w))
  {
  }

  /** One step of the generator is one moment of the script, or none of it. */
  lemma {:induction false} StepAlong(t: Target, m: Machine, todo: seq<Work>, g: Config)
      returns (moved: nat, todo1: seq<Work>)
    requires Sound(t) && g.Go? && Along(todo, g)
    ensures moved <= 1 && Moments(t, m, moved, todo, g.world) == (todo1, LoneStep(t, m, g).world)
    ensures Along(todo1, LoneStep(t, m, g))
  {
    hide Shape, Flows, Step, Proceed, Along;
    var pre, tail := AlongShape(todo, g);
    moved, todo1 := 0, todo;
    if pre != [] {
      PreStep(t, m, todo, pre, g.code, g.due, tail, g.world);
      AlongIs(todo, [], Flows(todo) + tail, g.due, g.world, tail);
    } else if todo == [] {
      LastAlong(t, m, g.code, g.due, tail, g.world);
    } else {
      var d := Proceed(t, m, todo, g.world);
      var next := MomentKept(t, m, todo, g.code, g.due, tail, g.world);
      OneMoment(t, m, todo, g.world);
      moved, todo1 := 1, d.todo;
      var r := Step(t, m, g);
      if r.Over? {
        AlongOver(r.world);
      } else if r.Paused? {
        AlongIs(d.todo, [], r.code, r.due, r.world, tail);
      } else {
        AlongIs(d.todo, next, r.code, r.due, r.world, tail);
      }
    }
  }

  lemma {:induction false} AlongShape(todo: seq<Work>, g: Config) returns (pre: seq<Flow>, tail: seq<Flow>)
    requires g.Go? && Along(todo, g)
    ensures Leading(pre) && Tail(tail) && Shape(todo, pre, g.code, g.due, tail)
  {
    hide Shape;
    pre, tail :| Leading(pre) && Tail(tail) && Shape(todo, pre, g.code, g.due, tail);
  }

  lemma {:induction false} LastAlong(t: Target, m: Machine, code: seq<Flow>, due: int, tail: seq<Flow>, w: World)
    requires Sound(t) && Tail(tail) && Shape([], [], code, due, tail)
    ensures var r := LoneStep(t, m, Go(code, due, w));
            r.world == w && Along([], r) && (code == [] ==> r == Over(w)) && (r.Go? ==> r.code == [])
  {
    assert code == tail;
    if tail == [Yield] {
      StepHead(t, m, Yield, [], due, w);
      assert tail == [Yield] + [];
      assert Shape([], [], [], due, []);
      AlongIs([], [], [], due, w, []);
    } else {
      AlongOver(w);
    }
  }

  /** After any number of steps the generator is at some moment of the script. */
  lemma {:induction false} StepsAlong(t: Target, m: Machine, n: nat, todo: seq<Work>, g: Config)
      returns (k: nat, todo1: seq<Work>)
    requires Sound(t) && Along(todo, g)
    ensures Moments(t, m, k, todo, g.world) == (todo1, LoneSteps(t, m, n, g).world)
    ensures Along(todo1, LoneSteps(t, m, n, g))
    decreases n
  {
    hide Along, LoneStep, Proceed;
    k, todo1 := 0, todo;
    if n > 0 {
      if g.Over? {
        LoneOver(t, m, n, g.world);
        return;
      }
      GoAlong(todo, g);
      var more;
      k, todo1 := StepAlong(t, m, todo, g);
      var g1 := LoneStep(t, m, g);
      var todo0 := todo1;
      more, todo1 := StepsAlong(t, m, n - 1, todo1, g1);
      MomentsAdd(t, m, k, more, todo, g.world);
      k := k + more;
    }
  }

  lemma {:induction false} GoAlong(todo: seq<Work>, g: Config)
    requires Along(todo, g) && !g.Over?
    ensures g.Go?
  {
  }

  /** A script that is over is over in the generator too, a few steps on. */
  lemma {:induction false} EndAlong(t: Target, m: Machine, g: Config) returns (n: nat)
    requires Sound(t) && Along([], g)
    ensures LoneSteps(t, m, n, g) == Over(g.world)
  {
    hide Shape, Flows, Step, Along;
    n := 0;
    if !g.Over? {
      GoAlong([], g);
      var pre, tail := AlongShape([], g);
      var g1 := g;
      if pre != [] {
        PreStep(t, m, [], pre, g.code, g.due, tail, g.world);
        g1 := LoneStep(t, m, g);
        OneLoneStep(t, m, g);
        n := 1;
      }
      LastAlong(t, m, g1.code, g1.due, tail, g1.world);
      var g2 := LoneStep(t, m, g1);
      OneLoneStep(t, m, g1);
      LoneStepsAdd(t, m, n, 1, g);
      n := n + 1;
      if g2.Go? {
        NothingAlong(g2.due);
        LastAlong(t, m, [], g2.due, [], g2.world);
        OneLoneStep(t, m, g2);
        LoneStepsAdd(t, m, n, 1, g);
        n := n + 1;
      }
    }
  }

  lemma {:induction false} NothingAlong(due: int)
    ensures Shape([], [], [], due, [])
  {
  }

  /** The generator comes to every moment of the script. */
  lemma {:induction false} MomentsAlong(t: Target, m: Machine, k: nat, todo: seq<Work>, g: Config) returns (n: nat)
    requires Sound(t) && Along(todo, g)
    ensures var (todo1, w1) := Moments(t, m, k, todo, g.world);
            LoneSteps(t, m, n, g).world == w1 && Along(todo1, LoneSteps(t, m, n, g))
    decreases k
  {
    hide Along, LoneStep, Proceed, Shape, Flows;
    n := 0;
    if k > 0 && todo != [] {
      OverAlong(todo, g);
      GoAlong(todo, g);
      var pre, _ := AlongShape(todo, g);
      var g1, todo1 := g, todo;
      if pre != [] {
        g1 := PassLead(t, m, todo, g);
        OneLoneStep(t, m, g);
        n := 1;
      }
      var g2 := LoneStep(t, m, g1);
      NextMoment(t, m, todo, g1);
      var d := Proceed(t, m, todo, g.world);
      OneLoneStep(t, m, g1);
      LoneStepsAdd(t, m, n, 1, g);
      var more := MomentsAlong(t, m, k - 1, d.todo, g2);
      LoneStepsAdd(t, m, n + 1, more, g);
      n := n + 1 + more;
    }
  }

  lemma {:induction false} OverAlong(todo: seq<Work>, g: Config)
    requires Along(todo, g) && todo != []
    ensures !g.Over?
  {
  }

  lemma {:induction false} PassLead(t: Target, m: Machine, todo: seq<Work>, g: Config) returns (g1: Config)
    requires Sound(t) && g.Go? && Along(todo, g)
    requires exists pre, tail :: pre != [] && Leading(pre) && Tail(tail) && Shape(todo, pre, g.code, g.due, tail)
    ensures g1 == LoneStep(t, m, g) && g1.Go? && g1.world == g.world && Clear(todo, g1)
  {
    hide Shape, Flows, Step, Along;
    var pre, tail :| pre != [] && Leading(pre) && Tail(tail) && Shape(todo, pre, g.code, g.due, tail);
    PreStep(t, m, todo, pre, g.code, g.due, tail, g.world);
    g1 := LoneStep(t, m, g);
  }

  /** Nothing the meaning does not know of stands in front. */
  ghost predicate Clear(todo: seq<Work>, g: Config) {
    g.Go? && exists tail | Tail(tail) :: Shape(todo, [], g.code, g.due, tail)
  }

  lemma {:induction false} NextMoment(t: Target, m: Machine, todo: seq<Work>, g: Config)
    requires Sound(t) && Clear(todo, g) && todo != []
    ensures var d := Proceed(t, m, todo, g.world);
            LoneStep(t, m, g).world == d.world && Along(d.todo, LoneStep(t, m, g))
  {
    hide Shape, Flows, Step, Proceed, Along;
    var tail :| Tail(tail) && Shape(todo, [], g.code, g.due, tail);
    var d := Proceed(t, m, todo, g.world);
    var next := MomentKept(t, m, todo, g.code, g.due, tail, g.world);
    var r := Step(t, m, g);
    if r.Over? {
      AlongOver(r.world);
    } else if r.Paused? {
      AlongIs(d.todo, [], r.code, r.due, r.world, tail);
    } else {
      AlongIs(d.todo, next, r.code, r.due, r.world, tail);
    }
  }

  // ---- the blocking program -----------------------------------------------

  lemma {:induction false} StartAlong(body: seq<Stmt>, w: World)
    ensures Along(Each(body), Go(EmitScript(body), 0, w))
  {
    hide Shape, EmitScript, Each;
    StartMeans([body], 0);
    var pre, tail :| Settled(pre) && Tail(tail) && Shape(Each(body), pre, EmitScript(body), 0, tail);
    AlongIs(Each(body), pre, EmitScript(body), 0, w, tail);
  }

  /** Whatever the script means to have done, at any moment, the blocking program
      has done at some point: the same variables after the same effects, every
      wait for the amount it reads. */
  lemma {:induction false} BlockingDoesAll(t: Target, m: Machine, body: seq<Stmt>, k: nat, w: World)
    requires Sound(t) && Steady(m) && CountsKeptIn(m, body)
    ensures exists j: nat ::
              Same(Moments(t, m, k, Each(body), w).1, Steps(t, m, j, Go(EmitCAll(body), 0, w)).world)
  {
    hide EmitScript, EmitCAll, Along, Moments, LoneSteps, Steps;
    var g, b := Go(EmitScript(body), 0, w), Go(EmitCAll(body), 0, w);
    StartAlong(body, w);
    var n := MomentsAlong(t, m, k, Each(body), g);
    var items := StartLevel(t, m, body, w);
    var j, _ := FollowAll(t, m, n, items, g, b);
    assert Same(Moments(t, m, k, Each(body), w).1, Steps(t, m, j, b).world);
  }

  /** And it does nothing else, as long as the clock goes on: every point of its
      run is a moment of the script, and it is at its end, or spins at a `stop`,
      only when the script is over. */
  lemma {:induction false} BlockingDoesOnly(t: Target, m: Machine, body: seq<Stmt>, j: nat, w: World)
    requires Sound(t) && Steady(m) && ClockRuns(m, t) && CountsKeptIn(m, body)
    ensures exists k: nat ::
              var b := Steps(t, m, j, Go(EmitCAll(body), 0, w));
              var (todo, w1) := Moments(t, m, k, Each(body), w);
              Same(w1, b.world) && (Done(b) ==> todo == [])
  {
    hide EmitScript, EmitCAll, Along, Moments, LoneSteps, Steps, Level;
    var g, b := Go(EmitScript(body), 0, w), Go(EmitCAll(body), 0, w);
    StartAlong(body, w);
    var items := StartLevel(t, m, body, w);
    var n, next := CatchUpAll(t, m, j, items, g, b);
    if Done(Steps(t, m, j, b)) && !LoneSteps(t, m, n, g).Over? {
      var more := FinishUp(t, m, next, LoneSteps(t, m, n, g), Steps(t, m, j, b));
      LoneStepsAdd(t, m, n, more, g);
      n := n + more;
    }
    LevelSame(m, t, next, LoneSteps(t, m, n, g), Steps(t, m, j, b));
    var k, todo := StepsAlong(t, m, n, Each(body), g);
    EndsOver(todo, LoneSteps(t, m, n, g));
    assert Same(Moments(t, m, k, Each(body), w).1, Steps(t, m, j, b).world);
  }

  lemma {:induction false} LevelSame(m: Machine, t: Target, items: seq<Item>, g: Config, b: Config)
    requires Sound(t)
    ensures Level(m, t, items, g, b) ==> Same(g.world, b.world)
  {
    hide Ready, TaskFlow, PlainFlow;
  }

  lemma {:induction false} EndsOver(todo: seq<Work>, g: Config)
    requires Along(todo, g)
    ensures g.Over? ==> todo == []
  {
  }
}
