/** A lone script: the task form and the blocking form have the same effects. */
module LoneScript {
  import opened Script
  import opened Machine
  import opened Structured
  import opened Generator
  import opened Blocking
  import opened TaskCode
  import opened Scheduler

  /** A generator resumed as soon as it yields. */
  function LoneStep(t: Target, m: Machine, c: Config): Config
    requires Sound(t)
  {
    match Step(t, m, c)
    case Paused(code, due, w) => Go(code, due, w)
    case next => next
  }

  function LoneSteps(t: Target, m: Machine, n: nat, c: Config): Config
    requires Sound(t)
  {
    if n == 0 then c else LoneSteps(t, m, n - 1, LoneStep(t, m, c))
  }

  ghost predicate Same(a: World, b: World) {
    a.globals == b.globals && a.log == b.log
  }

  /** The two codes have the same statements left and have had the same effects. */
  ghost predicate Level(m: Machine, t: Target, items: seq<Item>, g: Config, b: Config) {
    && g.Go? && g.code == TaskFlow(items)
    && b.Go? && b.code == PlainFlow(items)
    && Same(g.world, b.world)
    && Sound(t) && Ready(m, t, items, {}, g.world)
  }

  /** The blocking program has run to its end, or spins at a `stop`. */
  predicate Done(b: Config) {
    b.Over? || (b.Go? && b.code != [] && b.code[0] == Halt)
  }

  ghost predicate Followed(m: Machine, t: Target, items: seq<Item>, g: Config, b: Config) {
    if g.Over? then Same(g.world, b.world) && Done(b) else Level(m, t, items, g, b)
  }

  /** The items left after one generator step that did not end the script. */
  function Next(t: Target, m: Machine, items: seq<Item>, g: Config): seq<Item>
    requires Sound(t) && items != [] && g.Go?
  {
    var rest := items[1..];
    match items[0]
    case Begin(s) =>
      (match s
       case Act(_) => rest
       case Wait(n) => [Waiting(n)] + rest
       case WaitUntil(c) => if Test(m, c, g.world).0 then rest else [Tick] + items
       case Forever(body) => Body(body) + ([Tick] + items)
       case Repeat(n, body) => [Left(Latch(t, Count(m, n, g.world)), 0, n, body)] + rest
       case Loop(c, until, body) => if Test(m, c, g.world).0 != until then Body(body) + ([Tick] + items) else rest
       case If(c, body, orelse) =>
         if Test(m, c, g.world).0 then Body(body) + rest
         else if orelse == [] then rest
         else Body(orelse) + rest
       case Stop => rest)
    case Waiting(_) => if Early(t, m, g.due, g.world).0 then [Tick] + items else rest
    case Tick => rest
    case Skip => rest
    case Left(left, index, n, body) =>
      if left > 0 then Body(body) + ([Tick, Left(left - 1, index + 1, n, body)] + rest) else rest
  }

  /** Steps of the generator the blocking program has no counterpart for. */
  predicate Silent(t: Target, m: Machine, items: seq<Item>, g: Config)
    requires Sound(t) && items != [] && g.Go?
  {
    match items[0]
    case Begin(s) => s.Stop?
    case Waiting(_) => true
    case Tick => true
    case Skip => true
    case Left(_, _, _, _) => false
  }

  lemma {:induction false} ConsFlow(item: Item, rest: seq<Item>)
    ensures TaskFlow([item] + rest) == TaskOf(item) + TaskFlow(rest)
    ensures PlainFlow([item] + rest) == PlainOf(item) + PlainFlow(rest)
  {
    assert ([item] + rest)[1..] == rest;
  }

  /** What doing the head of the items does to globals and log. */
  function Effect(m: Machine, item: Item, w: World): World {
    if item.Begin? && item.s.Act? then Perform(m, item.s.act, w)
    else if item.Begin? && item.s.Wait? then Begins(m, item.s.amount, w).1
    else w
  }

  /** One step of the generator at the head of its remaining items. */
  ghost predicate Stepped(t: Target, m: Machine, items: seq<Item>, g: Config, g1: Config)
    requires Sound(t) && items != [] && g.Go?
  {
    if items[0] == Begin(Stop) then g1 == Over(g.world)
    else
      && g1.Go? && g1.code == TaskFlow(Next(t, m, items, g))
      && Same(g1.world, Effect(m, items[0], g.world))
  }

  lemma {:induction false} Regroup(a: seq<Flow>, b: seq<Flow>, c: seq<Flow>, d: seq<Flow>)
    ensures a + b + c + d == a + (b + (c + d))
    ensures b == [] ==> a + c + d == a + (c + d)
    ensures a == [] ==> b + c + d == b + (c + d)
  {
  }

  lemma {:induction false} TaskStepLoop(t: Target, m: Machine, items: seq<Item>, g: Config)
    requires Sound(t)
    requires g.Go? && items != [] && items[0].Begin? && g.code == TaskFlow(items)
    requires items[0].s.Forever? || items[0].s.Loop?
    ensures Stepped(t, m, items, g, LoneStep(t, m, g))
  {
    hide EmitAll, Suite, Body, TaskFlow, PlainFlow, Latch, Sound, Due, Pending, Perform;
    var s, rest := items[0].s, items[1..];
    var after := TaskFlow(rest);
    assert items == [Begin(s)] + rest;
    ConsFlow(Begin(s), rest);
    ConsFlow(Tick, items);
    assert g.code[0] == Emit(s)[0] && g.code[1..] == after;
    BodyCode(s.body, [Tick] + items);
    Regroup(Suite(EmitAll(s.body)), [Yield], Emit(s), after);
  }

  lemma {:induction false} TaskStepBlock(t: Target, m: Machine, items: seq<Item>, g: Config)
    requires Sound(t)
    requires g.Go? && items != [] && items[0].Begin? && g.code == TaskFlow(items)
    requires items[0].s.Repeat? || items[0].s.If?
    ensures Stepped(t, m, items, g, LoneStep(t, m, g))
  {
    hide EmitAll, Suite, Body, TaskFlow, PlainFlow, Latch, Sound, Due, Pending, Perform;
    var s, rest := items[0].s, items[1..];
    var after := TaskFlow(rest);
    assert items == [Begin(s)] + rest;
    ConsFlow(Begin(s), rest);
    assert g.code[0] == Emit(s)[0] && g.code[1..] == after;
    match s
    case Repeat(n, body) =>
      ConsFlow(Left(Latch(t, Count(m, n, g.world)), 0, n, body), rest);
    case If(c, body, orelse) =>
      assert [] + after == after;
      BodyCode(body, rest);
      BodyCode(orelse, rest);
  }

  lemma {:induction false} TaskStepBegin(t: Target, m: Machine, items: seq<Item>, g: Config)
    requires Sound(t)
    requires g.Go? && items != [] && items[0].Begin? && g.code == TaskFlow(items)
    requires Steady(m)
    ensures Stepped(t, m, items, g, LoneStep(t, m, g))
  {
    hide EmitAll, Suite, Body, TaskFlow, PlainFlow;
    var s, rest := items[0].s, items[1..];
    var after := TaskFlow(rest);
    assert items == [Begin(s)] + rest;
    ConsFlow(Begin(s), rest);
    ConsFlow(Tick, items);
    assert g.code[0] == Emit(s)[0] && g.code[1..] == Emit(s)[1..] + after;
    assert [] + after == after;
    match s
    case Act(a) =>
    case Wait(n) => ConsFlow(Waiting(n), rest);
    case WaitUntil(c) => Regroup([], [Yield], Emit(s), after);
    case Stop =>
    case Forever(_) => TaskStepLoop(t, m, items, g);
    case Loop(_, _, _) => TaskStepLoop(t, m, items, g);
    case _ => TaskStepBlock(t, m, items, g);
  }

  lemma {:induction false} TaskStepLeft(t: Target, m: Machine, items: seq<Item>, g: Config)
    requires Sound(t)
    requires g.Go? && items != [] && items[0].Left? && g.code == TaskFlow(items)
    ensures Stepped(t, m, items, g, LoneStep(t, m, g))
  {
    hide EmitAll, Suite, Body, TaskFlow, PlainFlow, Latch, Sound, Due, Pending, Perform;
    var rest := items[1..];
    var after := TaskFlow(rest);
    var Left(left, index, n, body) := items[0];
    assert items == [items[0]] + rest;
    ConsFlow(items[0], rest);
    assert g.code == TaskOf(items[0]) + after && g.code[1..] == after;
    if left > 0 {
      var next := Left(left - 1, index + 1, n, body);
      BodyCode(body, [Tick, next] + rest);
      assert [Tick, next] + rest == [Tick] + ([next] + rest);
      ConsFlow(Tick, [next] + rest);
      ConsFlow(next, rest);
      Regroup(Suite(EmitAll(body)), [Yield], TaskOf(next), after);
    }
  }

  lemma {:induction false} TaskStep(t: Target, m: Machine, items: seq<Item>, g: Config)
    requires Sound(t)
    requires g.Go? && items != [] && g.code == TaskFlow(items)
    requires Steady(m)
    ensures Stepped(t, m, items, g, LoneStep(t, m, g))
  {
    hide EmitAll, Suite, Body, TaskFlow, PlainFlow, Latch, Sound, Due, Pending, Perform;
    var rest := items[1..];
    var after := TaskFlow(rest);
    assert items == [items[0]] + rest;
    ConsFlow(items[0], rest);
    ConsFlow(Tick, items);
    match items[0]
    case Begin(_) => TaskStepBegin(t, m, items, g);
    case Waiting(n) =>
      assert g.code == [WhilePending([Yield])] + after && g.code[1..] == after;
      assert [Yield] + TaskOf(items[0]) + after == [Yield] + (TaskOf(items[0]) + after);
    case Tick => assert g.code == [Yield] + after && g.code[1..] == after;
    case Skip => assert g.code == [Pass] + after && g.code[1..] == after;
    case Left(_, _, _, _) => TaskStepLeft(t, m, items, g);
  }

  /** What one generator step at the head of `items` is in the blocking program:
      nothing if it is silent, otherwise one step. */
  ghost predicate Mirrored(t: Target, m: Machine, items: seq<Item>, g: Config, b: Config)
    requires Sound(t) && items != [] && g.Go? && b.Go?
  {
    var next := Next(t, m, items, g);
    if Silent(t, m, items, g) then
      if items[0] == Begin(Stop) then Done(b) else b.code == PlainFlow(next)
    else
      var b1 := Step(t, m, b);
      && b1.Go? && b1.code == PlainFlow(next)
      && Same(b1.world, Effect(m, items[0], g.world))
  }

  lemma {:induction false} PlainStepLoop(t: Target, m: Machine, items: seq<Item>, g: Config, b: Config)
    requires Sound(t) && Steady(m) && items != [] && items[0].Begin?
    requires items[0].s.Forever? || items[0].s.Loop?
    requires Level(m, t, items, g, b)
    ensures Mirrored(t, m, items, g, b)
  {
    hide EmitAll, EmitCAll, Suite, Body, TaskFlow, PlainFlow, Ready, Latch, Step, Sound, Due, Pending, Perform;
    var rest := items[1..];
    var after := PlainFlow(rest);
    assert items == [items[0]] + rest;
    ConsFlow(items[0], rest);
    ConsFlow(Tick, items);
    var s := items[0].s;
    assert b.code == [EmitC(s)[0]] + after;
    StepHead(t, m, EmitC(s)[0], after, b.due, b.world);
    BodyCode(s.body, [Tick] + items);
    Regroup(EmitCAll(s.body), [], EmitC(s), after);
  }

  lemma {:induction false} PlainStepBlock(t: Target, m: Machine, items: seq<Item>, g: Config, b: Config)
    requires Sound(t) && Steady(m) && items != [] && items[0].Begin?
    requires items[0].s.Repeat? || items[0].s.If?
    requires Level(m, t, items, g, b)
    ensures Mirrored(t, m, items, g, b)
  {
    hide EmitAll, EmitCAll, Suite, Body, TaskFlow, PlainFlow, Ready, Latch, Step, Sound, Due, Pending, Perform;
    var rest := items[1..];
    var after := PlainFlow(rest);
    assert items == [items[0]] + rest;
    ConsFlow(items[0], rest);
    var s := items[0].s;
    assert b.code == [EmitC(s)[0]] + after;
    StepHead(t, m, EmitC(s)[0], after, b.due, b.world);
    match s
    case Repeat(n, body) => ConsFlow(Left(Latch(t, Count(m, n, g.world)), 0, n, body), rest);
    case If(c, body, orelse) =>
      BodyCode(body, rest);
      BodyCode(orelse, rest);
      EmitCAllNone();
  }

  lemma {:induction false} PlainStepLeaf(t: Target, m: Machine, items: seq<Item>, g: Config, b: Config)
    requires Sound(t) && Steady(m) && items != [] && items[0].Begin?
    requires var s := items[0].s; s.Act? || s.Wait? || s.WaitUntil? || s.Stop?
    requires Level(m, t, items, g, b)
    ensures Mirrored(t, m, items, g, b)
  {
    hide EmitAll, EmitCAll, Suite, Body, TaskFlow, PlainFlow, Ready, Latch, Step, Sound, Word, Pending, CountsKept;
    var rest := items[1..];
    var after := PlainFlow(rest);
    assert items == [items[0]] + rest;
    ConsFlow(items[0], rest);
    var s := items[0].s;
    assert b.code == [EmitC(s)[0]] + after;
    StepHead(t, m, EmitC(s)[0], after, b.due, b.world);
    match s
    case Act(a) =>
    case Wait(n) => ConsFlow(Waiting(n), rest);
    case WaitUntil(c) =>
      ConsFlow(Tick, items);
      assert [] + [EmitC(s)[0]] + after == b.code;
    case Stop =>
  }

  lemma {:induction false} PlainStepBegin(t: Target, m: Machine, items: seq<Item>, g: Config, b: Config)
    requires Sound(t) && Steady(m) && items != [] && items[0].Begin?
    requires Level(m, t, items, g, b)
    ensures Mirrored(t, m, items, g, b)
  {
    hide Mirrored, Steady, Level, Sized;
    LevelGoes(m, t, items, g, b);
    match items[0].s
    case Forever(_) => PlainStepLoop(t, m, items, g, b);
    case Loop(_, _, _) => PlainStepLoop(t, m, items, g, b);
    case Repeat(_, _) => PlainStepBlock(t, m, items, g, b);
    case If(_, _, _) => PlainStepBlock(t, m, items, g, b);
    case _ => PlainStepLeaf(t, m, items, g, b);
  }

  lemma {:induction false} LevelGoes(m: Machine, t: Target, items: seq<Item>, g: Config, b: Config)
    requires Sound(t) && Level(m, t, items, g, b)
    ensures g.Go? && b.Go?
  {
    hide Ready, TaskFlow, PlainFlow;
  }

  /** A count reads the same in both programs, and is what was latched. */
  lemma {:induction false} LeftCounts(t: Target, m: Machine, items: seq<Item>, g: Config, b: Config)
    requires Sound(t) && Steady(m) && items != [] && items[0].Left?
    requires Level(m, t, items, g, b)
    ensures items[0].left + items[0].index == Latch(t, Number(m, items[0].count, b.world).0)
    ensures Same(Number(m, items[0].count, b.world).1, b.world)
  {
    hide TaskFlow, PlainFlow, Latch, Sound, CountsKeptIn, Keeps, Acts, ActsIn;
  }

  lemma {:induction false} PlainStepLeft(t: Target, m: Machine, items: seq<Item>, g: Config, b: Config)
    requires Sound(t) && Steady(m) && items != [] && items[0].Left?
    requires Level(m, t, items, g, b)
    ensures Mirrored(t, m, items, g, b)
  {
    hide EmitAll, EmitCAll, Suite, Body, TaskFlow, PlainFlow, Sound, Due, Pending, Perform, Ready, Steady, Number, Latch, Step;
    var rest := items[1..];
    var after := PlainFlow(rest);
    var Left(left, index, n, body) := items[0];
    assert items == [items[0]] + rest;
    ConsFlow(items[0], rest);
    LeftCounts(t, m, items, g, b);
    StepHead(t, m, ForFrom(index, n, EmitCAll(body)), after, b.due, b.world);
    if left > 0 {
      AnotherRound(left, index, n, body, rest);
    }
  }

  lemma {:induction false} AnotherRound(left: nat, index: nat, n: nat, body: seq<Stmt>, rest: seq<Item>)
    requires left > 0
    ensures PlainFlow(Body(body) + ([Tick, Left(left - 1, index + 1, n, body)] + rest)) ==
            EmitCAll(body) + [ForFrom(index + 1, n, EmitCAll(body))] + PlainFlow(rest)
  {
    hide EmitAll, EmitCAll, Suite, Body, TaskFlow, PlainFlow;
    var next, after := Left(left - 1, index + 1, n, body), PlainFlow(rest);
    BodyCode(body, [Tick, next] + rest);
    assert [Tick, next] + rest == [Tick] + ([next] + rest);
    ConsFlow(Tick, [next] + rest);
    ConsFlow(next, rest);
    Regroup(EmitCAll(body), [], PlainOf(next), after);
  }

  lemma {:induction false} PlainStep(t: Target, m: Machine, items: seq<Item>, g: Config, b: Config)
    requires Sound(t) && Steady(m) && items != []
    requires Level(m, t, items, g, b)
    ensures Mirrored(t, m, items, g, b)
  {
    hide EmitAll, EmitCAll, Suite, Body, TaskFlow, PlainFlow, Sound, Due, Pending, Perform, CountsKept, Ready, Latch;
    var rest := items[1..];
    var after := PlainFlow(rest);
    assert items == [items[0]] + rest;
    ConsFlow(items[0], rest);
    ConsFlow(Tick, items);
    assert [] + after == after && [] + PlainFlow(items) == PlainFlow(items);
    match items[0] {
      case Begin(s) => PlainStepBegin(t, m, items, g, b);
      case Waiting(n) =>
      case Tick =>
      case Skip =>
      case Left(left, index, n, body) => PlainStepLeft(t, m, items, g, b);
    }
  }

  lemma {:induction false} EmitCAllNone()
    ensures EmitCAll([]) == []
  {
  }

  lemma {:induction false} ReadyNextBegin(t: Target, m: Machine, items: seq<Item>, g: Config, w1: World)
    requires Sound(t) && Steady(m) && items != [] && items[0].Begin? && g.Go?
    requires Ready(m, t, items, {}, g.world)
    requires w1.globals == Effect(m, items[0], g.world).globals
    ensures Ready(m, t, Next(t, m, items, g), {}, w1)
  {
    hide Body, Latch;
    var rest := items[1..];
    var w := g.world;
    assert ([Tick] + items)[1..] == items;
    assert forall acts: set<nat> :: {} + acts == acts && acts + acts == acts;
    var s := items[0].s;
    assert items == [Begin(s)] + rest;
    ReadyAfter(m, t, rest, {} + Acts(s), w, {}, w1);
    match s
    case Act(a) =>
    case Wait(n) => assert ([Waiting(n)] + rest)[1..] == rest;
    case WaitUntil(c) => ReadyAfter(m, t, items, {}, w, {}, w1);
    case Forever(body) => ReadyLoop(t, m, body, Begin(s), rest, w, w1);
    case Repeat(n, body) =>
      ReadyAfter(m, t, rest, {} + ActsIn(body), w, {} + ActsIn(body), w1);
      var left := Left(Latch(t, Count(m, n, w)), 0, n, body);
      assert ([left] + rest)[1..] == rest;
      CountAfter(m, n, {}, w, w1);
    case Loop(c, until, body) => ReadyLoop(t, m, body, Begin(s), rest, w, w1);
    case If(_, _, _) => ReadyNextIf(t, m, items, g, w1);
    case Stop =>
  }

  lemma {:induction false} ReadyNextIf(t: Target, m: Machine, items: seq<Item>, g: Config, w1: World)
    requires Sound(t) && Steady(m) && items != [] && items[0].Begin? && items[0].s.If? && g.Go?
    requires Ready(m, t, items, {}, g.world)
    requires w1.globals == Effect(m, items[0], g.world).globals
    ensures Ready(m, t, Next(t, m, items, g), {}, w1)
  {
    hide Body, Latch;
    var rest, s, w := items[1..], items[0].s, g.world;
    assert items == [Begin(s)] + rest;
    ReadyAfter(m, t, rest, {} + Acts(s), w, ActsIn(s.body), w1);
    ReadyAfter(m, t, rest, {} + Acts(s), w, ActsIn(s.orelse), w1);
    ReadyBody(m, t, s.body, rest, w1);
    ReadyBody(m, t, s.orelse, rest, w1);
  }

  lemma {:induction false} ReadyNext(t: Target, m: Machine, items: seq<Item>, g: Config, w1: World)
    requires Sound(t) && Steady(m) && items != [] && g.Go?
    requires Ready(m, t, items, {}, g.world)
    requires w1.globals == Effect(m, items[0], g.world).globals
    ensures Ready(m, t, Next(t, m, items, g), {}, w1)
  {
    hide Body, Latch;
    var rest := items[1..];
    var w := g.world;
    assert ([Tick] + items)[1..] == items;
    assert forall acts: set<nat> :: {} + acts == acts && acts + acts == acts;
    match items[0] {
      case Begin(s) => ReadyNextBegin(t, m, items, g, w1);
      case Waiting(n) =>
        ReadyAfter(m, t, items, {}, w, {}, w1);
        ReadyAfter(m, t, rest, {}, w, {}, w1);
      case Tick => ReadyAfter(m, t, rest, {}, w, {}, w1);
      case Skip => ReadyAfter(m, t, rest, {}, w, {}, w1);
      case Left(left, index, n, body) =>
        ReadyAfter(m, t, rest, {} + ActsIn(body), w, {}, w1);
        if left > 0 {
          CountAfter(m, n, {}, w, w1);
          ReadyLoop(t, m, body, Left(left - 1, index + 1, n, body), rest, w, w1);
          assert [Tick, Left(left - 1, index + 1, n, body)] + rest == [Tick] + ([Left(left - 1, index + 1, n, body)] + rest);
        }
    }
  }

  /** A loop body in front of its own loop. */
  lemma {:induction false} ReadyLoop(t: Target, m: Machine, body: seq<Stmt>, loop: Item, rest: seq<Item>, w: World,
                                     w1: World)
    requires Sound(t) && Steady(m)
    requires w1.globals == w.globals
    requires match loop
             case Begin(s) => (s.Forever? || s.Loop?) && s.body == body && CountsKept(m, s)
             case Left(left, index, n, b) =>
               && b == body && CountsKeptIn(m, body) && Keeps(m, n, ActsIn(body))
               && left + index == Latch(t, Count(m, n, w1))
             case _ => false
    requires Ready(m, t, rest, ActsIn(body), w)
    ensures Ready(m, t, Body(body) + ([Tick] + ([loop] + rest)), {}, w1)
  {
    hide Latch, Keeps;
    var tail := [Tick] + ([loop] + rest);
    assert tail[1..] == [loop] + rest && ([loop] + rest)[1..] == rest;
    assert ActsIn(body) + ActsIn(body) == ActsIn(body);
    ReadyAfter(m, t, rest, ActsIn(body), w, ActsIn(body), w1);
    assert Ready(m, t, [loop] + rest, ActsIn(body), w1);
    assert Ready(m, t, tail, ActsIn(body), w1);
    ReadyBody(m, t, body, tail, w1);
  }

  // ---- whole runs ---------------------------------------------------------

  /** One generator step, with the blocking steps (none or one) that keep up with it. */
  lemma {:induction false} Follow(t: Target, m: Machine, items: seq<Item>, g: Config, b: Config)
      returns (moved: nat, next: seq<Item>)
    requires Sound(t) && Steady(m)
    requires Level(m, t, items, g, b)
    ensures moved <= 1
    ensures Followed(m, t, next, LoneStep(t, m, g), Steps(t, m, moved, b))
    ensures items != [] && items[0] != Begin(Stop) ==> next == Next(t, m, items, g)
    ensures items != [] && items[0] == Begin(Stop) ==> LoneStep(t, m, g).Over?
    ensures moved == if items == [] || !Silent(t, m, items, g) then 1 else 0
  {
    hide TaskFlow, PlainFlow, Ready, Next, Enter;
    if items == [] {
      moved, next := 1, [];
      EmptyFlow();
      assert Steps(t, m, 1, b) == Steps(t, m, 0, Step(t, m, b));
    } else {
      TaskStep(t, m, items, g);
      PlainStep(t, m, items, g, b);
      ReadyNext(t, m, items, g, LoneStep(t, m, g).world);
      next := Next(t, m, items, g);
      moved := if Silent(t, m, items, g) then 0 else 1;
      assert Steps(t, m, 1, b) == Steps(t, m, 0, Step(t, m, b));
    }
  }

  lemma {:induction false} EmptyFlow()
    ensures TaskFlow([]) == [] && PlainFlow([]) == []
  {
  }

  lemma {:induction false} LoneOver(t: Target, m: Machine, n: nat, w: World)
    requires Sound(t)
    ensures LoneSteps(t, m, n, Over(w)) == Over(w)
    decreases n
  {
    if n > 0 {
      LoneOver(t, m, n - 1, w);
    }
  }

  lemma {:induction false} LoneStepsAdd(t: Target, m: Machine, a: nat, b: nat, c: Config)
    requires Sound(t)
    ensures LoneSteps(t, m, a + b, c) == LoneSteps(t, m, b, LoneSteps(t, m, a, c))
    decreases a
  {
    if a > 0 {
      LoneStepsAdd(t, m, a - 1, b, LoneStep(t, m, c));
    }
  }

  /** Whatever the generator has done after `n` steps, the blocking program has done at some point. */
  lemma {:induction false} FollowAll(t: Target, m: Machine, n: nat, items: seq<Item>, g: Config, b: Config)
      returns (k: nat, next: seq<Item>)
    requires Sound(t) && Steady(m)
    requires Level(m, t, items, g, b)
    ensures Followed(m, t, next, LoneSteps(t, m, n, g), Steps(t, m, k, b))
    decreases n
  {
    hide TaskFlow, PlainFlow, Ready, LoneStep;
    if n == 0 {
      return 0, items;
    }
    var moved, items1 := Follow(t, m, items, g, b);
    var g1, b1 := LoneStep(t, m, g), Steps(t, m, moved, b);
    if g1.Over? {
      LoneOver(t, m, n - 1, g1.world);
      return moved, items1;
    }
    k, next := FollowAll(t, m, n - 1, items1, g1, b1);
    StepsAdd(t, m, moved, k, b);
    k := moved + k;
  }

  /** The environment after `j` looks at the clock. */
  function PollEnv(m: Machine, e: Env, j: nat): Env {
    if j == 0 then e else PollEnv(m, m.clock(e).1, j - 1)
  }

  /** Whoever keeps looking at the clock sees every deadline pass. */
  ghost predicate ClockRuns(m: Machine, t: Target)
    requires Sound(t)
  {
    forall e, due :: PassesInTime(m, t, e, due)
  }

  ghost predicate PassesInTime(m: Machine, t: Target, e: Env, due: int)
    requires Sound(t)
  {
    exists j: nat :: Passed(m, t, e, due, j)
  }

  predicate Passed(m: Machine, t: Target, e: Env, due: int, j: nat)
    requires Sound(t)
  {
    !Pending(t, m.clock(PollEnv(m, e, j)).0, due)
  }

  /** A waiting generator polls until its deadline has passed; the blocking program has been through its delay. */
  lemma {:induction false} WaitOut(t: Target, m: Machine, j: nat, items: seq<Item>, g: Config, b: Config)
      returns (n: nat, next: seq<Item>)
    requires Sound(t) && Steady(m)
    requires Level(m, t, items, g, b)
    requires items != [] && items[0].Waiting?
    requires Passed(m, t, g.world.env, g.due, j)
    ensures Level(m, t, next, LoneSteps(t, m, n, g), b) && next == items[1..]
    decreases j
  {
    hide TaskFlow, PlainFlow, Ready;
    if !Early(t, m, g.due, g.world).0 {
      var moved, items1 := Follow(t, m, items, g, b);
      TaskStep(t, m, items, g);
      OneLoneStep(t, m, g);
      StepsZero(t, m, b);
      return 1, items1;
    }
    var g1 := Go(g.code, g.due, Early(t, m, g.due, g.world).1);
    assert items == [items[0]] + items[1..];
    ConsFlow(items[0], items[1..]);
    PollAgain(t, m, g, TaskFlow(items[1..]));
    ReadyAfter(m, t, items, {}, g.world, {}, g1.world);
    n, next := WaitOut(t, m, j - 1, items, g1, b);
    LoneStepsAdd(t, m, 2, n, g);
    n := 2 + n;
  }

  lemma {:induction false} PollAgain(t: Target, m: Machine, g: Config, after: seq<Flow>)
    requires Sound(t)
    requires g.Go? && g.code == [WhilePending([Yield])] + after
    requires Early(t, m, g.due, g.world).0
    ensures LoneSteps(t, m, 2, g) == Go(g.code, g.due, Early(t, m, g.due, g.world).1)
  {
    assert g.code[1..] == after;
    var g1 := LoneStep(t, m, g);
    Regroup([], [Yield], [WhilePending([Yield])], after);
    assert g1.code == [Yield] + g.code;
    assert g1.code[1..] == g.code;
    OneLoneStep(t, m, g);
    OneLoneStep(t, m, g1);
    LoneStepsAdd(t, m, 1, 1, g);
  }

  /** The generator catches up with one blocking step. */
  lemma {:induction false} CatchUp(t: Target, m: Machine, items: seq<Item>, g: Config, b: Config)
      returns (n: nat, next: seq<Item>)
    requires Sound(t) && Steady(m) && ClockRuns(m, t)
    requires Level(m, t, items, g, b)
    ensures var g1 := LoneSteps(t, m, n, g);
            Followed(m, t, next, g1, Steps(t, m, 1, b)) || (g1.Over? && Followed(m, t, next, g1, b))
    decreases |items|, if items != [] && items[0].Begin? then 1 else 0
  {
    hide TaskFlow, PlainFlow, Ready;
    if items != [] && items[0].Waiting? {
      assert PassesInTime(m, t, g.world.env, g.due);
      var j: nat :| Passed(m, t, g.world.env, g.due, j);
      n, next := WaitOut(t, m, j, items, g, b);
      var more;
      var g0 := LoneSteps(t, m, n, g);
      more, next := CatchUp(t, m, next, g0, b);
      LoneStepsAdd(t, m, n, more, g);
      n := n + more;
      return;
    }
    var moved, items1 := Follow(t, m, items, g, b);
    var g1 := LoneStep(t, m, g);
    OneLoneStep(t, m, g);
    StepsZero(t, m, b);
    n, next := 1, items1;
    if moved == 0 && !g1.Over? {
      assert |items1| <= |items|;
      var more;
      more, next := CatchUp(t, m, items1, g1, b);
      LoneStepsAdd(t, m, 1, more, g);
      n := 1 + more;
    }
  }

  /** Once the blocking program has stopped, the generator ends without another effect. */
  lemma {:induction false} FinishUp(t: Target, m: Machine, items: seq<Item>, g: Config, b: Config) returns (n: nat)
    requires Sound(t) && Steady(m) && ClockRuns(m, t)
    requires Level(m, t, items, g, b) && Done(b)
    ensures var g1 := LoneSteps(t, m, n, g); g1.Over? && Same(g1.world, b.world)
    decreases |items|
  {
    hide TaskFlow, PlainFlow, Ready, LoneStep, EmitCAll;
    EmptyFlow();
    assert items != [];
    assert items == [items[0]] + items[1..];
    ConsFlow(items[0], items[1..]);
    if items[0].Waiting? {
      assert PassesInTime(m, t, g.world.env, g.due);
      var j: nat :| Passed(m, t, g.world.env, g.due, j);
      var next;
      n, next := WaitOut(t, m, j, items, g, b);
      var more := FinishUp(t, m, next, LoneSteps(t, m, n, g), b);
      LoneStepsAdd(t, m, n, more, g);
      n := n + more;
      return;
    }
    assert items[0].Tick? || items[0].Skip? || items[0] == Begin(Stop);
    var moved, items1 := Follow(t, m, items, g, b);
    StepsZero(t, m, b);
    OneLoneStep(t, m, g);
    assert moved == 0;
    n := 1;
    if !LoneStep(t, m, g).Over? {
      var more := FinishUp(t, m, items1, LoneStep(t, m, g), b);
      LoneStepsAdd(t, m, 1, more, g);
      n := 1 + more;
    }
  }

  lemma {:induction false} DoneStays(t: Target, m: Machine, k: nat, b: Config)
    requires Sound(t) && Done(b)
    ensures Done(Steps(t, m, k, b)) && Steps(t, m, k, b).world == b.world
    decreases k
  {
    if k > 0 {
      DoneStays(t, m, k - 1, Step(t, m, b));
    }
  }

  /** Whatever the blocking program has done after `k` steps, the generator does too. */
  lemma {:induction false} CatchUpAll(t: Target, m: Machine, k: nat, items: seq<Item>, g: Config, b: Config)
      returns (n: nat, next: seq<Item>)
    requires Sound(t) && Steady(m) && ClockRuns(m, t)
    requires Level(m, t, items, g, b)
    ensures Followed(m, t, next, LoneSteps(t, m, n, g), Steps(t, m, k, b))
    decreases k
  {
    hide TaskFlow, PlainFlow, Ready;
    if k == 0 {
      return 0, items;
    }
    n, next := CatchUp(t, m, items, g, b);
    var g1 := LoneSteps(t, m, n, g);
    var b1 := Steps(t, m, 1, b);
    StepsAdd(t, m, 1, k - 1, b);
    if g1.Over? {
      if Followed(m, t, next, g1, b) {
        DoneStays(t, m, k, b);
      } else {
        DoneStays(t, m, k - 1, b1);
      }
    } else {
      var more;
      more, next := CatchUpAll(t, m, k - 1, next, g1, b1);
      LoneStepsAdd(t, m, n, more, g);
      n := n + more;
    }
  }

  lemma {:induction false} OneLoneStep(t: Target, m: Machine, g: Config)
    requires Sound(t)
    ensures LoneSteps(t, m, 1, g) == LoneStep(t, m, g)
  {
    assert LoneSteps(t, m, 1, g) == LoneSteps(t, m, 0, LoneStep(t, m, g));
  }

  // ---- passes of the scheduler --------------------------------------------

  function Place(gen: Gen, w: World): Config {
    if gen.Finished? then Over(w) else Go(gen.code, gen.due, w)
  }

  lemma {:induction false} ResumeIsLone(t: Target, m: Machine, budget: nat, gen: Gen, w: World) returns (n: nat)
    requires Sound(t) && budget > 0 && gen.Alive?
    ensures n > 0
    ensures var (gen1, w1) := Resume(t, m, budget, gen, w);
            LoneSteps(t, m, n, Go(gen.code, gen.due, w)) == Place(gen1, w1)
    decreases budget
  {
    hide Enter;
    var c := Go(gen.code, gen.due, w);
    var c1 := Step(t, m, c);
    OneLoneStep(t, m, c);
    n := 1;
    if c1.Go? {
      StepsZero(t, m, c1);
      if budget > 1 {
        var gen1 := Alive(c1.code, c1.due);
        var more := ResumeIsLone(t, m, budget - 1, gen1, c1.world);
        LoneStepsAdd(t, m, 1, more, c);
        n := 1 + more;
      }
    } else {
      StepsSettled(t, m, budget - 1, c1);
    }
  }

  /** The scheduler of a lone script, seen as one generator that is always resumed. */
  lemma {:induction false} PassesAreSteps(t: Target, m: Machine, budget: nat, body: seq<Stmt>, passes: nat, w: World)
      returns (n: nat)
    requires Sound(t) && budget > 0
    ensures var p := PyRun(t, m, budget, passes, PyStart([body], w));
            && |p.gens| == 1
            && p.tasks == (if p.gens[0].Alive? then [0] else [])
            && LoneSteps(t, m, n, Go(EmitScript(body), 0, w)) == Place(p.gens[0], p.world)
            && (p.gens[0].Alive? ==> n >= passes)
    decreases passes
  {
    hide EmitScript, Resume, LoneStep;
    var p0 := PyStart([body], w);
    if passes == 0 {
      assert p0.tasks == [0] && p0.gens == [Alive(EmitScript(body), 0)];
      return 0;
    }
    n := PassesAreSteps(t, m, budget, body, passes - 1, w);
    var q := PyRun(t, m, budget, passes - 1, p0);
    var g := Go(EmitScript(body), 0, w);
    if q.gens[0].Alive? {
      var (gen, w1) := Resume(t, m, budget, q.gens[0], q.world);
      var q1 := PySystem(if gen.Finished? then Remove(q.tasks, 0) else q.tasks, q.gens[0 := gen], w1);
      assert q.tasks[1..] == [];
      assert PyPass(t, m, budget, q.tasks, q) == PyPass(t, m, budget, [], q1) == q1;
      var more := ResumeIsLone(t, m, budget, q.gens[0], q.world);
      LoneStepsAdd(t, m, n, more, g);
      n := n + more;
    }
  }

  lemma {:induction false} StartLevel(t: Target, m: Machine, body: seq<Stmt>, w: World) returns (items: seq<Item>)
    requires Sound(t) && CountsKeptIn(m, body)
    ensures Level(m, t, items, Go(EmitScript(body), 0, w), Go(EmitCAll(body), 0, w))
  {
    YieldsSomewhereIffLabelled(body);
    EmptyFlow();
    if YieldsSomewhere(EmitAll(body)) {
      items := Begun(body);
      BegunCode(body);
      ReadyBegun(m, t, body, [], {}, w);
      assert Begun(body) + [] == Begun(body);
    } else {
      items := Body(body) + [Tick];
      BodyCode(body, [Tick]);
      ConsFlow(Tick, []);
      assert [Tick] + [] == [Tick] && [Tick][1..] == [];
      assert EmitCAll(body) + [] == EmitCAll(body);
      ReadyBody(m, t, body, [Tick], w);
    }
  }

  lemma {:induction false} LogGrows(t: Target, m: Machine, n: nat, c: Config)
    requires Sound(t)
    ensures c.world.log <= LoneSteps(t, m, n, c).world.log
    decreases n
  {
    if n > 0 {
      var c1 := LoneStep(t, m, c);
      assert c.world.log <= c1.world.log;
      LogGrows(t, m, n - 1, c1);
    }
  }

  /** The task form does nothing the blocking form would not do: after any number
      of passes its globals and its effects are those of some point of the blocking run. */
  lemma {:induction false} TaskFormIsSound(t: Target, m: Machine, body: seq<Stmt>, v: nat, passes: nat, w: World)
    requires Sound(t) && Steady(m) && CountsKeptIn(m, body)
    requires YieldsIn(body) < STOPPED
    ensures exists k: nat ::
              Same(CRun(t, m, [body], v, passes, w).world, Steps(t, m, k, Go(EmitCAll(body), 0, w)).world)
  {
    var budget := Budget(body);
    SameRun(t, m, [body], v, budget, passes, w);
    var n := PassesAreSteps(t, m, budget, body, passes, w);
    var items := StartLevel(t, m, body, w);
    var k, _ := FollowAll(t, m, n, items, Go(EmitScript(body), 0, w), Go(EmitCAll(body), 0, w));
    assert Same(CRun(t, m, [body], v, passes, w).world, Steps(t, m, k, Go(EmitCAll(body), 0, w)).world);
  }

  /** And it leaves nothing out: whatever the blocking form has done after `k`
      steps some pass has done too, and when the blocking form is finished or
      stopped that pass leaves the same globals after exactly the same effects. */
  lemma {:induction false} TaskFormIsComplete(t: Target, m: Machine, body: seq<Stmt>, v: nat, k: nat, w: World)
    requires Sound(t) && Steady(m) && ClockRuns(m, t) && CountsKeptIn(m, body)
    requires YieldsIn(body) < STOPPED
    ensures exists passes: nat ::
              var c := CRun(t, m, [body], v, passes, w).world;
              var b := Steps(t, m, k, Go(EmitCAll(body), 0, w));
              b.world.log <= c.log && (Done(b) ==> Same(c, b.world))
  {
    hide EmitScript, EmitCAll, LoneStep, Ready, TaskFlow, PlainFlow, CRun, PyRun, Steps, AliveFrom, AlikeAt;
    var budget := Budget(body);
    var g, b := Go(EmitScript(body), 0, w), Go(EmitCAll(body), 0, w);
    var items := StartLevel(t, m, body, w);
    var n, next := CatchUpAll(t, m, k, items, g, b);
    if Done(Steps(t, m, k, b)) && !LoneSteps(t, m, n, g).Over? {
      var more := FinishUp(t, m, next, LoneSteps(t, m, n, g), Steps(t, m, k, b));
      LoneStepsAdd(t, m, n, more, g);
      n := n + more;
    }
    var passes := n + 1;
    SameRun(t, m, [body], v, budget, passes, w);
    var n1 := PassesAreSteps(t, m, budget, body, passes, w);
    var mid := LoneSteps(t, m, n, g);
    if n1 >= n {
      LoneStepsAdd(t, m, n, n1 - n, g);
      LogGrows(t, m, n1 - n, mid);
      if mid.Over? {
        LoneOver(t, m, n1 - n, mid.world);
      }
    } else {
      LoneStepsAdd(t, m, n1, n - n1, g);
      LoneOver(t, m, n - n1, CRun(t, m, [body], v, passes, w).world);
    }
    var b1 := Steps(t, m, k, b);
    assert b1.world.log <= CRun(t, m, [body], v, passes, w).world.log && (Done(b1) ==> Same(CRun(t, m, [body], v, passes, w).world, b1.world));
  }
}
