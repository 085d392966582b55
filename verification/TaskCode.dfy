/** The C form of one cooperative task: statements inside a `switch`, with case
    labels in the middle of nested blocks. */
module TaskCode {
  import opened Script
  import opened Machine

  datatype Line =
    | Plain(act: nat)
    | SetUntil(amount: nat)                  // task_until = now() + ms;
    | SetState(k: nat)                       // task_state = k;
    | Case(k: nat)                           // case k:
    | ReturnIfEarly                          // if ((int)(now() - task_until) < 0) return;
    | ReturnUnless(cond: nat)                // if (!(cond)) return;
    | SetCounter(counter: nat, count: nat)   // bw_i = (count);
    | Decrement(counter: nat)                // bw_i--;
    | IfCounter(counter: nat, body: seq<Line>)
    | IfTest(cond: nat, want: bool, body: seq<Line>, orelse: seq<Line>)
    | ReturnNow

  const STOPPED: nat := 0xFFFF

  // ---- the lowering -------------------------------------------------------

  /** The lines of one statement, when `n` labels and `v` counters are already in use. */
  function Lower(s: Stmt, n: nat, v: nat): seq<Line>
    decreases s
  {
    match s
    case Act(a) => [Plain(a)]
    case Wait(e) => [SetUntil(e), SetState(n + 1), Case(n + 1), ReturnIfEarly]
    case WaitUntil(c) => [SetState(n + 1), Case(n + 1), ReturnUnless(c)]
    case Forever(body) =>
      [SetState(n + 1), Case(n + 1)] + LowerAll(body, n + 1, v) + [SetState(n + 1), ReturnNow]
    case Repeat(e, body) =>
      [SetCounter(v + 1, e), SetState(n + 1), Case(n + 1),
       IfCounter(v + 1, LowerAll(body, n + 1, v + 1) + [Decrement(v + 1), SetState(n + 1), ReturnNow])]
    case Loop(c, until, body) =>
      [SetState(n + 1), Case(n + 1),
       IfTest(c, !until, LowerAll(body, n + 1, v) + [SetState(n + 1), ReturnNow], [])]
    case If(c, body, orelse) =>
      [IfTest(c, true, LowerAll(body, n, v), LowerAll(orelse, n + YieldsIn(body), v + RepeatsIn(body)))]
    case Stop => [SetState(STOPPED), ReturnNow]
  }

  function LowerAll(body: seq<Stmt>, n: nat, v: nat): seq<Line>
    decreases body
  {
    if body == [] then []
    else Lower(body[0], n, v) + LowerAll(body[1..], n + Yields(body[0]), v + Repeats(body[0]))
  }

  lemma {:induction false} LowerAllSnoc(done: seq<Stmt>, s: Stmt, n: nat, v: nat)
    ensures YieldsIn(done + [s]) == YieldsIn(done) + Yields(s)
    ensures RepeatsIn(done + [s]) == RepeatsIn(done) + Repeats(s)
    ensures LowerAll(done + [s], n, v) == LowerAll(done, n, v) + Lower(s, n + YieldsIn(done), v + RepeatsIn(done))
    decreases done
  {
    hide Lower, Yields, Repeats;
    var all := done + [s];
    if done == [] {
      assert all[1..] == [];
    } else {
      assert all[0] == done[0] && all[1..] == done[1..] + [s];
      var n1, v1 := n + Yields(done[0]), v + Repeats(done[0]);
      LowerAllSnoc(done[1..], s, n1, v1);
      assert n1 + YieldsIn(done[1..]) == n + YieldsIn(done) && v1 + RepeatsIn(done[1..]) == v + RepeatsIn(done);
      var last := Lower(s, n + YieldsIn(done), v + RepeatsIn(done));
      assert Lower(done[0], n, v) + (LowerAll(done[1..], n1, v1) + last)
          == Lower(done[0], n, v) + LowerAll(done[1..], n1, v1) + last;
    }
  }

  /** The `k` counter names that follow `v`. */
  function Names(v: nat, k: nat): seq<nat> {
    if k == 0 then [] else Names(v, k - 1) + [v + k]
  }

  lemma {:induction false} NamesAdd(v: nat, a: nat, b: nat)
    ensures Names(v, a + b) == Names(v, a) + Names(v + a, b)
    decreases b
  {
    if b > 0 {
      NamesAdd(v, a, b - 1);
    }
  }

  lemma {:induction false} EmittedNone(n: nat, v: nat)
    ensures LowerAll([], n, v) == [] && YieldsIn([]) == 0 && RepeatsIn([]) == 0 && Names(v, 0) == []
  {
  }

  lemma {:induction false} EmittedOneMore(body: seq<Stmt>, i: nat, n: nat, v: nat)
    requires i < |body|
    ensures YieldsIn(body[..i + 1]) == YieldsIn(body[..i]) + Yields(body[i])
    ensures RepeatsIn(body[..i + 1]) == RepeatsIn(body[..i]) + Repeats(body[i])
    ensures LowerAll(body[..i + 1], n, v) ==
            LowerAll(body[..i], n, v) + Lower(body[i], n + YieldsIn(body[..i]), v + RepeatsIn(body[..i]))
    ensures Names(v, RepeatsIn(body[..i + 1])) ==
            Names(v, RepeatsIn(body[..i])) + Names(v + RepeatsIn(body[..i]), Repeats(body[i]))
  {
    assert body[..i + 1] == body[..i] + [body[i]];
    LowerAllSnoc(body[..i], body[i], n, v);
    NamesAdd(v, RepeatsIn(body[..i]), Repeats(body[i]));
  }

  /** The counters in use before script `i` is lowered. */
  function CounterBase(whens: seq<seq<Stmt>>, v: nat, i: nat): nat
    requires i <= |whens|
  {
    if i == 0 then v else CounterBase(whens, v, i - 1) + RepeatsIn(whens[i - 1])
  }

  /** The emitter's own state: labels and counters handed out so far, and the
      counters to declare. */
  class Emitter {
    var states: nat
    var counter: nat
    var statics: seq<nat>

    constructor (counter: nat)
      ensures states == 0 && this.counter == counter && statics == []
    {
      states, this.counter, statics := 0, counter, [];
    }

    method YieldState() returns (state: nat)
      modifies this`states
      ensures state == states == old(states) + 1
    {
      states := states + 1;
      state := states;
    }

    method StmtsTask(body: seq<Stmt>) returns (out: seq<Line>)
      modifies this
      ensures out == LowerAll(body, old(states), old(counter))
      ensures states == old(states) + YieldsIn(body)
      ensures counter == old(counter) + RepeatsIn(body)
      ensures statics == old(statics) + Names(old(counter), RepeatsIn(body))
      decreases body
    {
      hide Lower, Yields, Repeats, LowerAll, YieldsIn, RepeatsIn, Names;
      EmittedNone(states, counter);
      out := [];
      ghost var n, v := states, counter;
      for i := 0 to |body|
        invariant states == n + YieldsIn(body[..i])
        invariant counter == v + RepeatsIn(body[..i])
        invariant out == LowerAll(body[..i], n, v)
        invariant statics == old(statics) + Names(v, RepeatsIn(body[..i]))
      {
        var node := body[i];
        var lines := StmtTask(node);
        out := out + lines;
        EmittedOneMore(body, i, n, v);
      }
      assert body[..|body|] == body;
    }

    method StmtTask(node: Stmt) returns (out: seq<Line>)
      modifies this
      ensures out == Lower(node, old(states), old(counter))
      ensures states == old(states) + Yields(node)
      ensures counter == old(counter) + Repeats(node)
      ensures statics == old(statics) + Names(old(counter), Repeats(node))
      decreases node, 1
    {
      ghost var n, v := states, counter;
      match node {
        case Act(a) =>
          out := [Plain(a)];
        case Wait(e) =>
          var state := YieldState();
          out := [SetUntil(e), SetState(state), Case(state), ReturnIfEarly];
        case WaitUntil(c) =>
          var state := YieldState();
          out := [SetState(state), Case(state), ReturnUnless(c)];
        case Forever(body) =>
          var state := YieldState();
          out := [SetState(state), Case(state)];
          var inner := StmtsTask(body);
          out := out + inner + [SetState(state), ReturnNow];
          assert out == Lower(node, n, v);
        case Repeat(e, body) =>
          out := RepeatTask(e, body);
        case Loop(c, until, body) =>
          var state := YieldState();
          var inner := StmtsTask(body);
          out := [SetState(state), Case(state), IfTest(c, !until, inner + [SetState(state), ReturnNow], [])];
        case If(c, body, orelse) =>
          out := IfTask(c, body, orelse);
        case Stop =>
          out := [SetState(STOPPED), ReturnNow];
      }
    }

    method RepeatTask(e: nat, body: seq<Stmt>) returns (out: seq<Line>)
      modifies this
      ensures out == Lower(Repeat(e, body), old(states), old(counter))
      ensures states == old(states) + 1 + YieldsIn(body)
      ensures counter == old(counter) + 1 + RepeatsIn(body)
      ensures statics == old(statics) + Names(old(counter), 1 + RepeatsIn(body))
      decreases Repeat(e, body), 0
    {
      NamesAdd(counter, 1, RepeatsIn(body));
      assert Names(counter, 1) == [counter + 1];
      counter := counter + 1;
      var name := counter;
      statics := statics + [name];
      var state := YieldState();
      var inner := StmtsTask(body);
      out := [SetCounter(name, e), SetState(state), Case(state),
              IfCounter(name, inner + [Decrement(name), SetState(state), ReturnNow])];
    }

    method IfTask(c: nat, body: seq<Stmt>, orelse: seq<Stmt>) returns (out: seq<Line>)
      modifies this
      ensures out == Lower(If(c, body, orelse), old(states), old(counter))
      ensures states == old(states) + YieldsIn(body) + YieldsIn(orelse)
      ensures counter == old(counter) + RepeatsIn(body) + RepeatsIn(orelse)
      ensures statics == old(statics) + Names(old(counter), RepeatsIn(body) + RepeatsIn(orelse))
      decreases If(c, body, orelse), 0
    {
      hide LowerAll, YieldsIn, RepeatsIn, Names;
      NamesAdd(counter, RepeatsIn(body), RepeatsIn(orelse));
      EmittedNone(states + YieldsIn(body), counter + RepeatsIn(body));
      var inner := StmtsTask(body);
      var other: seq<Line> := [];
      if orelse != [] {
        other := StmtsTask(orelse);
      }
      out := [IfTest(c, true, inner, other)];
    }

    /** Labels start again with every script; counters run on through all of them. */
    method EmitTasks(whens: seq<seq<Stmt>>) returns (codes: seq<seq<Line>>)
      modifies this
      ensures |codes| == |whens|
      ensures forall i | 0 <= i < |whens| :: codes[i] == LowerAll(whens[i], 0, CounterBase(whens, old(counter), i))
      ensures counter == CounterBase(whens, old(counter), |whens|)
    {
      codes := [];
      ghost var v := counter;
      for i := 0 to |whens|
        invariant |codes| == i && counter == CounterBase(whens, v, i)
        invariant forall j | 0 <= j < i :: codes[j] == LowerAll(whens[j], 0, CounterBase(whens, v, j))
      {
        states := 0;
        var code := StmtsTask(whens[i]);
        codes := codes + [code];
      }
    }
  }

  // ---- what the C code does ----------------------------------------------

  /** One task's statics, the REPEAT counters all tasks share, and the world. */
  datatype CState = CState(state: nat, until: int, counters: map<nat, nat>, world: World)

  function Counter(counters: map<nat, nat>, v: nat): nat {
    if v in counters then counters[v] else 0
  }

  /** Before its label is found a `switch` skips; afterwards it falls through. */
  datatype Mode = Seek(k: nat) | Run

  datatype Outcome = Fell(mode: Mode, s: CState) | Returned(s: CState)

  /** Any target: on one that is not C the same lines count and tell time as that
      target does, which only the proofs ask for. */
  function ExecAll(t: Target, m: Machine, code: seq<Line>, mode: Mode, s: CState): Outcome
    requires Sound(t)
    decreases code
  {
    if code == [] then Fell(mode, s)
    else
      var out := Exec(t, m, code[0], mode, s);
      if out.Returned? then out else ExecAll(t, m, code[1..], out.mode, out.s)
  }

  function Exec(t: Target, m: Machine, line: Line, mode: Mode, s: CState): Outcome
    requires Sound(t)
    decreases line
  {
    if mode.Seek? then
      match line
      case Case(k) => Fell(if k == mode.k then Run else mode, s)
      case IfCounter(_, body) => ExecAll(t, m, body, mode, s)
      case IfTest(_, _, body, orelse) =>
        var out := ExecAll(t, m, body, mode, s);
        if out.Fell? && out.mode.Seek? then ExecAll(t, m, orelse, out.mode, out.s) else out
      case _ => Fell(mode, s)
    else
      match line
      case Plain(a) => Fell(Run, s.(world := Perform(m, a, s.world)))
      case SetUntil(e) =>
        var (until, w) := Deadline(t, m, e, s.world);
        Fell(Run, s.(until := until, world := w))
      case SetState(k) => Fell(Run, s.(state := Latch(t, k)))
      case Case(_) => Fell(Run, s)
      case ReturnIfEarly =>
        var (early, w) := Early(t, m, s.until, s.world);
        if early then Returned(s.(world := w)) else Fell(Run, s.(world := w))
      case ReturnUnless(c) =>
        var (b, w) := Test(m, c, s.world);
        if !b then Returned(s.(world := w)) else Fell(Run, s.(world := w))
      case SetCounter(v, e) =>
        var (i, w) := Number(m, e, s.world);
        Fell(Run, s.(counters := s.counters[v := Latch(t, i)], world := w))
      case Decrement(v) =>
        Fell(Run, s.(counters := s.counters[v := Less(t, Counter(s.counters, v))]))
      case IfCounter(v, body) =>
        if Counter(s.counters, v) != 0 then ExecAll(t, m, body, Run, s) else Fell(Run, s)
      case IfTest(c, want, body, orelse) =>
        var (b, w) := Test(m, c, s.world);
        ExecAll(t, m, if b == want then body else orelse, Run, s.(world := w))
      case ReturnNow => Returned(s)
  }

  /** One call of the task function: `switch (state) { case 0: body }`, then
      `state = 0xFFFF` when control comes out at the bottom. */
  function Dispatch(t: Target, m: Machine, body: seq<Line>, s: CState): CState
    requires Sound(t)
  {
    var out := ExecAll(t, m, [Case(0)] + body, Seek(s.state), s);
    if out.Returned? then out.s else out.s.(state := STOPPED)
  }

  // ---- how much one dispatch can do ---------------------------------------

  function Leaves(s: Stmt): nat
    decreases s
  {
    match s
    case Act(_) => 1
    case Wait(_) => 1
    case Forever(body) => LeavesIn(body)
    case Repeat(_, body) => LeavesIn(body)
    case Loop(_, _, body) => LeavesIn(body)
    case If(_, body, orelse) => LeavesIn(body) + LeavesIn(orelse)
    case _ => 0
  }

  function LeavesIn(body: seq<Stmt>): nat
    decreases body
  {
    if body == [] then 0 else Leaves(body[0]) + LeavesIn(body[1..])
  }

  function Plains(line: Line): nat
    decreases line
  {
    match line
    case Plain(_) => 1
    case SetUntil(_) => 1
    case IfCounter(_, body) => PlainsIn(body)
    case IfTest(_, _, body, orelse) => PlainsIn(body) + PlainsIn(orelse)
    case _ => 0
  }

  function PlainsIn(code: seq<Line>): nat
    decreases code
  {
    if code == [] then 0 else Plains(code[0]) + PlainsIn(code[1..])
  }

  lemma {:induction false} PlainsConcat(a: seq<Line>, b: seq<Line>)
    ensures PlainsIn(a + b) == PlainsIn(a) + PlainsIn(b)
    decreases a
  {
    if a == [] {
      assert a + b == b;
    } else {
      assert (a + b)[1..] == a[1..] + b;
      PlainsConcat(a[1..], b);
    }
  }

  predicate Silent(line: Line) {
    !line.Plain? && !line.SetUntil? && !line.IfCounter? && !line.IfTest?
  }

  lemma {:induction false} SilentCode(code: seq<Line>)
    requires forall k | 0 <= k < |code| :: Silent(code[k])
    ensures PlainsIn(code) == 0
    decreases code
  {
    if code != [] {
      SilentCode(code[1..]);
    }
  }

  /** Only what stands between the silent lines of a lowering counts. */
  lemma {:induction false} PlainsBetween(head: seq<Line>, inner: seq<Line>, tail: seq<Line>)
    requires forall k | 0 <= k < |head| :: Silent(head[k])
    requires forall k | 0 <= k < |tail| :: Silent(tail[k])
    ensures PlainsIn(head + inner + tail) == PlainsIn(inner)
  {
    SilentCode(head);
    SilentCode(tail);
    PlainsConcat(head + inner, tail);
    PlainsConcat(head, inner);
  }

  /** Lowering copies every leaf statement exactly once. */
  lemma {:induction false} PlainsOfLower(s: Stmt, n: nat, v: nat)
    ensures PlainsIn(Lower(s, n, v)) == Leaves(s)
    decreases s
  {
    hide LowerAll, PlainsIn, LeavesIn, YieldsIn, RepeatsIn;
    match s
    case Forever(body) =>
      PlainsOfLowerAll(body, n + 1, v);
      PlainsBetween([SetState(n + 1), Case(n + 1)], LowerAll(body, n + 1, v), [SetState(n + 1), ReturnNow]);
    case Repeat(e, body) =>
      PlainsOfLowerAll(body, n + 1, v + 1);
      var inner, tail := LowerAll(body, n + 1, v + 1), [Decrement(v + 1), SetState(n + 1), ReturnNow];
      var head := [SetCounter(v + 1, e), SetState(n + 1), Case(n + 1)];
      PlainsOfLoop(head, IfCounter(v + 1, inner + tail), inner, tail);
      assert Lower(s, n, v) == head + [IfCounter(v + 1, inner + tail)];
    case Loop(c, until, body) =>
      PlainsOfLowerAll(body, n + 1, v);
      var inner, tail := LowerAll(body, n + 1, v), [SetState(n + 1), ReturnNow];
      var head := [SetState(n + 1), Case(n + 1)];
      PlainsOfLoop(head, IfTest(c, !until, inner + tail, []), inner, tail);
      assert Lower(s, n, v) == head + [IfTest(c, !until, inner + tail, [])];
    case If(c, body, orelse) =>
      PlainsOfLowerAll(body, n, v);
      PlainsOfLowerAll(orelse, n + YieldsIn(body), v + RepeatsIn(body));
      OnePlain(IfTest(c, true, LowerAll(body, n, v), LowerAll(orelse, n + YieldsIn(body), v + RepeatsIn(body))));
    case Act(a) => OnePlain(Plain(a));
    case Wait(e) =>
      assert Lower(s, n, v) == [SetUntil(e)] + [SetState(n + 1), Case(n + 1), ReturnIfEarly];
      PlainsConcat([SetUntil(e)], [SetState(n + 1), Case(n + 1), ReturnIfEarly]);
      OnePlain(SetUntil(e));
      SilentCode([SetState(n + 1), Case(n + 1), ReturnIfEarly]);
    case _ => SilentCode(Lower(s, n, v));
  }

  lemma {:induction false} PlainsOfLoop(head: seq<Line>, loop: Line, inner: seq<Line>, tail: seq<Line>)
    requires loop.IfCounter? || (loop.IfTest? && loop.orelse == [])
    requires loop.body == inner + tail
    requires forall k | 0 <= k < |head| :: Silent(head[k])
    requires forall k | 0 <= k < |tail| :: Silent(tail[k])
    ensures PlainsIn(head + [loop]) == PlainsIn(inner)
  {
    SilentCode(head);
    SilentCode(tail);
    PlainsConcat(inner, tail);
    PlainsConcat(head, [loop]);
    OnePlain(loop);
  }

  lemma {:induction false} OnePlain(line: Line)
    ensures PlainsIn([line]) == Plains(line)
  {
    assert PlainsIn([line][1..]) == 0;
  }

  lemma {:induction false} PlainsOfLowerAll(body: seq<Stmt>, n: nat, v: nat)
    ensures PlainsIn(LowerAll(body, n, v)) == LeavesIn(body)
    decreases body
  {
    hide Lower, Leaves;
    if body != [] {
      PlainsOfLower(body[0], n, v);
      PlainsOfLowerAll(body[1..], n + Yields(body[0]), v + Repeats(body[0]));
      PlainsConcat(Lower(body[0], n, v), LowerAll(body[1..], n + Yields(body[0]), v + Repeats(body[0])));
    }
  }

  /** `w1` is `w` after at most `n` more effects. */
  predicate Within(w: World, w1: World, n: nat) {
    w.log <= w1.log && |w1.log| <= |w.log| + n
  }

  lemma {:induction false} ExecAllBounded(t: Target, m: Machine, code: seq<Line>, mode: Mode, s: CState)
    requires Sound(t)
    ensures Within(s.world, ExecAll(t, m, code, mode, s).s.world, PlainsIn(code))
    decreases code
  {
    if code != [] {
      ExecBounded(t, m, code[0], mode, s);
      var out := Exec(t, m, code[0], mode, s);
      if out.Fell? {
        ExecAllBounded(t, m, code[1..], out.mode, out.s);
      }
    }
  }

  lemma {:induction false} ExecBounded(t: Target, m: Machine, line: Line, mode: Mode, s: CState)
    requires Sound(t)
    ensures Within(s.world, Exec(t, m, line, mode, s).s.world, Plains(line))
    decreases line
  {
    match line
    case IfCounter(_, body) =>
      ExecAllBounded(t, m, body, mode, s);
    case IfTest(c, want, body, orelse) =>
      if mode.Seek? {
        ExecAllBounded(t, m, body, mode, s);
        var out := ExecAll(t, m, body, mode, s);
        if out.Fell? {
          ExecAllBounded(t, m, orelse, out.mode, out.s);
        }
      } else {
        var (b, w) := Test(m, c, s.world);
        ExecAllBounded(t, m, if b == want then body else orelse, Run, s.(world := w));
      }
    case _ =>
  }

  /** No jump goes backwards: one dispatch carries out at most as many leaf
      statements and begins at most as many waits as the script has, wherever it
      resumes. */
  lemma {:induction false} DispatchIsBounded(t: Target, m: Machine, body: seq<Stmt>, v: nat, cs: CState)
    requires Sound(t)
    ensures Within(cs.world, Dispatch(t, m, LowerAll(body, 0, v), cs).world, LeavesIn(body))
  {
    hide ExecAll, LowerAll, LeavesIn;
    var code := LowerAll(body, 0, v);
    ExecAllBounded(t, m, [Case(0)] + code, Seek(cs.state), cs);
    PlainsConcat([Case(0)], code);
    SilentCode([Case(0)]);
    PlainsOfLowerAll(body, 0, v);
  }

  lemma {:induction false} ExecConcat(t: Target, m: Machine, a: seq<Line>, b: seq<Line>, mode: Mode, s: CState)
    requires Sound(t)
    ensures ExecAll(t, m, a + b, mode, s) ==
            var out := ExecAll(t, m, a, mode, s);
            if out.Returned? then out else ExecAll(t, m, b, out.mode, out.s)
    decreases a
  {
    if a == [] {
      assert a + b == b;
    } else {
      assert (a + b)[1..] == a[1..] + b;
      var out := Exec(t, m, a[0], mode, s);
      if out.Fell? {
        ExecConcat(t, m, a[1..], b, out.mode, out.s);
      }
    }
  }

  // ---- the lowered statements, seen whole ---------------------------------

  lemma {:induction false} ExecOne(t: Target, m: Machine, a: Line, mode: Mode, s: CState)
    requires Sound(t)
    ensures ExecAll(t, m, [a], mode, s) == Exec(t, m, a, mode, s)
  {
    var out := Exec(t, m, a, mode, s);
    if out.Fell? {
      assert ExecAll(t, m, [a][1..], out.mode, out.s) == out;
    }
  }

  lemma {:induction false} ExecCons(t: Target, m: Machine, a: Line, rest: seq<Line>, mode: Mode, s: CState)
    requires Sound(t)
    ensures ExecAll(t, m, [a] + rest, mode, s) ==
            var out := Exec(t, m, a, mode, s);
            if out.Returned? then out else ExecAll(t, m, rest, out.mode, out.s)
  {
    assert ([a] + rest)[1..] == rest;
  }

  /** Reaching `task_state = k; case k:` from above, jumping to it, or jumping elsewhere. */
  function AtLabel(t: Target, k: nat, mode: Mode, s: CState): Outcome
    requires Sound(t)
  {
    if mode.Run? then Fell(Run, s.(state := Latch(t, k)))
    else if mode.k == k then Fell(Run, s)
    else Fell(mode, s)
  }

  /** After a loop body: `task_state = k; return;`. */
  function Back(t: Target, k: nat, out: Outcome): Outcome
    requires Sound(t)
  {
    if out.Fell? && out.mode.Run? then Returned(out.s.(state := Latch(t, k))) else out
  }

  lemma {:induction false} ExecLabel(t: Target, m: Machine, k: nat, rest: seq<Line>, mode: Mode, s: CState)
    requires Sound(t)
    ensures ExecAll(t, m, [SetState(k), Case(k)] + rest, mode, s) ==
            var here := AtLabel(t, k, mode, s); ExecAll(t, m, rest, here.mode, here.s)
  {
    assert [SetState(k), Case(k)] + rest == [SetState(k)] + ([Case(k)] + rest);
    ExecCons(t, m, SetState(k), [Case(k)] + rest, mode, s);
    var set1 := Exec(t, m, SetState(k), mode, s);
    ExecCons(t, m, Case(k), rest, set1.mode, set1.s);
  }

  lemma {:induction false} ExecBack(t: Target, m: Machine, inner: seq<Line>, k: nat, mode: Mode, s: CState)
    requires Sound(t)
    ensures ExecAll(t, m, inner + [SetState(k), ReturnNow], mode, s) == Back(t, k, ExecAll(t, m, inner, mode, s))
  {
    ExecConcat(t, m, inner, [SetState(k), ReturnNow], mode, s);
    var out := ExecAll(t, m, inner, mode, s);
    if out.Fell? {
      assert [SetState(k), ReturnNow] == [SetState(k)] + [ReturnNow];
      ExecCons(t, m, SetState(k), [ReturnNow], out.mode, out.s);
      var set1 := Exec(t, m, SetState(k), out.mode, out.s);
      ExecOne(t, m, ReturnNow, set1.mode, set1.s);
    }
  }

  lemma {:induction false} ExecStop(t: Target, m: Machine, n: nat, v: nat, mode: Mode, s: CState)
    requires Sound(t)
    ensures ExecAll(t, m, Lower(Stop, n, v), mode, s) ==
            if mode.Run? then Returned(s.(state := STOPPED)) else Fell(mode, s)
  {
    ExecBack(t, m, [], STOPPED, mode, s);
    assert Lower(Stop, n, v) == [] + [SetState(STOPPED), ReturnNow];
  }

  lemma {:induction false} ExecWait(t: Target, m: Machine, e: nat, n: nat, v: nat, mode: Mode, s: CState)
    requires Sound(t)
    ensures ExecAll(t, m, Lower(Wait(e), n, v), mode, s) ==
            var s0 := Exec(t, m, SetUntil(e), mode, s).s;
            var here := AtLabel(t, n + 1, mode, s0);
            Exec(t, m, ReturnIfEarly, here.mode, here.s)
  {
    assert Lower(Wait(e), n, v) == [SetUntil(e)] + ([SetState(n + 1), Case(n + 1)] + [ReturnIfEarly]);
    ExecCons(t, m, SetUntil(e), [SetState(n + 1), Case(n + 1)] + [ReturnIfEarly], mode, s);
    var s0 := Exec(t, m, SetUntil(e), mode, s).s;
    ExecLabel(t, m, n + 1, [ReturnIfEarly], mode, s0);
    var here := AtLabel(t, n + 1, mode, s0);
    ExecOne(t, m, ReturnIfEarly, here.mode, here.s);
  }

  lemma {:induction false} ExecWaitUntil(t: Target, m: Machine, c: nat, n: nat, v: nat, mode: Mode, s: CState)
    requires Sound(t)
    ensures ExecAll(t, m, Lower(WaitUntil(c), n, v), mode, s) ==
            var here := AtLabel(t, n + 1, mode, s);
            Exec(t, m, ReturnUnless(c), here.mode, here.s)
  {
    assert Lower(WaitUntil(c), n, v) == [SetState(n + 1), Case(n + 1)] + [ReturnUnless(c)];
    ExecLabel(t, m, n + 1, [ReturnUnless(c)], mode, s);
    var here := AtLabel(t, n + 1, mode, s);
    ExecOne(t, m, ReturnUnless(c), here.mode, here.s);
  }

  lemma {:induction false} ExecForever(t: Target, m: Machine, body: seq<Stmt>, n: nat, v: nat, mode: Mode, s: CState)
    requires Sound(t)
    ensures ExecAll(t, m, Lower(Forever(body), n, v), mode, s) ==
            var here := AtLabel(t, n + 1, mode, s);
            Back(t, n + 1, ExecAll(t, m, LowerAll(body, n + 1, v), here.mode, here.s))
  {
    var inner := LowerAll(body, n + 1, v);
    var rest := inner + [SetState(n + 1), ReturnNow];
    assert Lower(Forever(body), n, v) == [SetState(n + 1), Case(n + 1)] + rest;
    ExecLabel(t, m, n + 1, rest, mode, s);
    var here := AtLabel(t, n + 1, mode, s);
    ExecBack(t, m, inner, n + 1, here.mode, here.s);
  }

  lemma {:induction false} ExecLoop(t: Target, m: Machine, c: nat, until: bool, body: seq<Stmt>, n: nat, v: nat,
                                    mode: Mode, s: CState)
    requires Sound(t)
    ensures ExecAll(t, m, Lower(Loop(c, until, body), n, v), mode, s) ==
            var here := AtLabel(t, n + 1, mode, s);
            var inner := LowerAll(body, n + 1, v);
            if here.mode.Seek? then Back(t, n + 1, ExecAll(t, m, inner, here.mode, here.s))
            else
              var (b, w) := Test(m, c, here.s.world);
              if b != until then Back(t, n + 1, ExecAll(t, m, inner, Run, here.s.(world := w)))
              else Fell(Run, here.s.(world := w))
  {
    var inner := LowerAll(body, n + 1, v);
    var line := IfTest(c, !until, inner + [SetState(n + 1), ReturnNow], []);
    assert Lower(Loop(c, until, body), n, v) == [SetState(n + 1), Case(n + 1)] + [line];
    ExecLabel(t, m, n + 1, [line], mode, s);
    var here := AtLabel(t, n + 1, mode, s);
    ExecOne(t, m, line, here.mode, here.s);
    var (b, w) := Test(m, c, here.s.world);
    ExecBack(t, m, inner, n + 1, here.mode, if here.mode.Run? then here.s.(world := w) else here.s);
  }

  /** A REPEAT's back-edge also counts down. */
  function CountDown(t: Target, m: Machine, v: nat, out: Outcome): Outcome
    requires Sound(t)
  {
    if out.Returned? then out else Exec(t, m, Decrement(v), out.mode, out.s)
  }

  lemma {:induction false} ExecRepeat(t: Target, m: Machine, e: nat, body: seq<Stmt>, n: nat, v: nat, mode: Mode,
                                      s: CState)
    requires Sound(t)
    ensures ExecAll(t, m, Lower(Repeat(e, body), n, v), mode, s) ==
            var s0 := Exec(t, m, SetCounter(v + 1, e), mode, s).s;
            var here := AtLabel(t, n + 1, mode, s0);
            if here.mode.Seek? || Counter(s0.counters, v + 1) != 0 then
              Back(t, n + 1, CountDown(t, m, v + 1, ExecAll(t, m, LowerAll(body, n + 1, v + 1), here.mode, here.s)))
            else here
  {
    hide ExecAll, LowerAll;
    var inner := LowerAll(body, n + 1, v + 1);
    var round := inner + [Decrement(v + 1), SetState(n + 1), ReturnNow];
    var line := IfCounter(v + 1, round);
    assert Lower(Repeat(e, body), n, v) == [SetCounter(v + 1, e)] + ([SetState(n + 1), Case(n + 1)] + [line]);
    ExecCons(t, m, SetCounter(v + 1, e), [SetState(n + 1), Case(n + 1)] + [line], mode, s);
    var s0 := Exec(t, m, SetCounter(v + 1, e), mode, s).s;
    ExecLabel(t, m, n + 1, [line], mode, s0);
    var here := AtLabel(t, n + 1, mode, s0);
    ExecOne(t, m, line, here.mode, here.s);
    assert round == inner + [Decrement(v + 1)] + [SetState(n + 1), ReturnNow];
    ExecBack(t, m, inner + [Decrement(v + 1)], n + 1, here.mode, here.s);
    ExecConcat(t, m, inner, [Decrement(v + 1)], here.mode, here.s);
    var out := ExecAll(t, m, inner, here.mode, here.s);
    if out.Fell? {
      ExecOne(t, m, Decrement(v + 1), out.mode, out.s);
    }
  }
}
