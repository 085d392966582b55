/** One dispatch of the C task and one resume of the generator do the same thing. */
module Simulation {
  import opened Script
  import opened Machine
  import opened Structured
  import opened TaskCode
  import opened Generator

  // ---- where a label stands in the generator ------------------------------

  /** What the generator has left of `s` when the C task's state word is label `k` of `s`. */
  function Rest(s: Stmt, n: nat, v: nat, k: nat, counters: map<nat, nat>): seq<Flow>
    requires n < k <= n + Yields(s)
    decreases s
  {
    match s
    case Wait(_) => [WhilePending([Yield])]
    case WaitUntil(c) => [While(c, false, [Yield])]
    case Forever(body) =>
      if k == n + 1 then Emit(s) else RestIn(body, n + 1, v, k, counters) + [Yield] + Emit(s)
    case Repeat(_, body) =>
      var round := Suite(EmitAll(body)) + [Yield];
      var left := Counter(counters, v + 1);
      if k == n + 1 then [ForLeft(left, round)]
      else RestIn(body, n + 1, v + 1, k, counters) + [Yield] + [ForLeft(if left == 0 then 0 else left - 1, round)]
    case Loop(_, _, body) =>
      if k == n + 1 then Emit(s) else RestIn(body, n + 1, v, k, counters) + [Yield] + Emit(s)
    case If(_, body, orelse) =>
      if k <= n + YieldsIn(body) then RestIn(body, n, v, k, counters)
      else RestIn(orelse, n + YieldsIn(body), v + RepeatsIn(body), k, counters)
  }

  function RestIn(body: seq<Stmt>, n: nat, v: nat, k: nat, counters: map<nat, nat>): seq<Flow>
    requires n < k <= n + YieldsIn(body)
    decreases body
  {
    var n1 := n + Yields(body[0]);
    if k <= n1 then Rest(body[0], n, v, k, counters) + EmitAll(body[1..])
    else RestIn(body[1..], n1, v + Repeats(body[0]), k, counters)
  }

  /** A task suspended inside the body of a REPEAT has at least that round to finish. */
  predicate Live(s: Stmt, n: nat, v: nat, k: nat, counters: map<nat, nat>)
    requires n < k <= n + Yields(s)
    decreases s
  {
    match s
    case Forever(body) => k > n + 1 ==> LiveIn(body, n + 1, v, k, counters)
    case Repeat(_, body) =>
      k > n + 1 ==> Counter(counters, v + 1) > 0 && LiveIn(body, n + 1, v + 1, k, counters)
    case Loop(_, _, body) => k > n + 1 ==> LiveIn(body, n + 1, v, k, counters)
    case If(_, body, orelse) =>
      if k <= n + YieldsIn(body) then LiveIn(body, n, v, k, counters)
      else LiveIn(orelse, n + YieldsIn(body), v + RepeatsIn(body), k, counters)
    case _ => true
  }

  predicate LiveIn(body: seq<Stmt>, n: nat, v: nat, k: nat, counters: map<nat, nat>)
    requires n < k <= n + YieldsIn(body)
    decreases body
  {
    var n1 := n + Yields(body[0]);
    if k <= n1 then Live(body[0], n, v, k, counters)
    else LiveIn(body[1..], n1, v + Repeats(body[0]), k, counters)
  }

  /** A bound on the generator steps of one resume: nothing is entered twice. */
  function Weight(s: Stmt): nat
    decreases s
  {
    match s
    case Forever(body) => 5 + WeightIn(body)
    case Repeat(_, body) => 5 + WeightIn(body)
    case Loop(_, _, body) => 5 + WeightIn(body)
    case If(_, body, orelse) => 5 + WeightIn(body) + WeightIn(orelse)
    case _ => 5
  }

  function WeightIn(body: seq<Stmt>): nat
    decreases body
  {
    if body == [] then 0 else Weight(body[0]) + WeightIn(body[1..])
  }

  /** Only counters v+1 .. v+count may differ. */
  ghost predicate Frame(a: map<nat, nat>, b: map<nat, nat>, v: nat, count: nat) {
    forall i: nat | i <= v || i > v + count :: Counter(a, i) == Counter(b, i)
  }

  ghost predicate Suspended(s: Stmt, n: nat, v: nat, k: nat, cs: CState, g: Config, after: seq<Flow>) {
    && n < k <= n + Yields(s)
    && Live(s, n, v, k, cs.counters)
    && g == Paused(Rest(s, n, v, k, cs.counters) + after, cs.until, cs.world)
  }

  ghost predicate SuspendedIn(body: seq<Stmt>, n: nat, v: nat, k: nat, cs: CState, g: Config, after: seq<Flow>) {
    && n < k <= n + YieldsIn(body)
    && LiveIn(body, n, v, k, cs.counters)
    && g == Paused(RestIn(body, n, v, k, cs.counters) + after, cs.until, cs.world)
  }

  /** The C outcome `out` of running `s` and the generator `g` stand at the same place. */
  ghost predicate Matches(s: Stmt, n: nat, v: nat, counters: map<nat, nat>, out: Outcome, g: Config, after: seq<Flow>) {
    && Frame(counters, out.s.counters, v, Repeats(s))
    && match out
       case Fell(mode, s1) => mode.Run? && g == Go(after, s1.until, s1.world)
       case Returned(s1) =>
         if s1.state == STOPPED then g == Over(s1.world) else Suspended(s, n, v, s1.state, s1, g, after)
  }

  ghost predicate MatchesIn(body: seq<Stmt>, n: nat, v: nat, counters: map<nat, nat>, out: Outcome, g: Config, after: seq<Flow>) {
    && Frame(counters, out.s.counters, v, RepeatsIn(body))
    && match out
       case Fell(mode, s1) => mode.Run? && g == Go(after, s1.until, s1.world)
       case Returned(s1) =>
         if s1.state == STOPPED then g == Over(s1.world) else SuspendedIn(body, n, v, s1.state, s1, g, after)
  }

  lemma {:induction false} FellMatches(s: Stmt, n: nat, v: nat, cs: CState, after: seq<Flow>)
    ensures Matches(s, n, v, cs.counters, Fell(Run, cs), Go(after, cs.until, cs.world), after)
  {
  }

  /** Labels outside a statement's range are not found in it, and nothing happens on the way. */
  lemma {:induction false} SeekPast(t: Target, m: Machine, s: Stmt, n: nat, v: nat, k: nat, cs: CState)
    requires Sound(t)
    requires k <= n || k > n + Yields(s)
    ensures ExecAll(t, m, Lower(s, n, v), Seek(k), cs) == Fell(Seek(k), cs)
    decreases s
  {
    hide ExecAll, LowerAll;
    match s
    case Act(a) => ExecOne(t, m, Plain(a), Seek(k), cs);
    case Wait(e) => ExecWait(t, m, e, n, v, Seek(k), cs);
    case WaitUntil(c) => ExecWaitUntil(t, m, c, n, v, Seek(k), cs);
    case Forever(body) =>
      SeekPastAll(t, m, body, n + 1, v, k, cs);
      ExecForever(t, m, body, n, v, Seek(k), cs);
    case Repeat(e, body) =>
      SeekPastAll(t, m, body, n + 1, v + 1, k, cs);
      ExecRepeat(t, m, e, body, n, v, Seek(k), cs);
    case Loop(c, until, body) =>
      SeekPastAll(t, m, body, n + 1, v, k, cs);
      ExecLoop(t, m, c, until, body, n, v, Seek(k), cs);
    case If(c, body, orelse) =>
      SeekPastAll(t, m, body, n, v, k, cs);
      SeekPastAll(t, m, orelse, n + YieldsIn(body), v + RepeatsIn(body), k, cs);
      ExecOne(t, m, Lower(s, n, v)[0], Seek(k), cs);
    case Stop => ExecStop(t, m, n, v, Seek(k), cs);
  }

  lemma {:induction false} SeekPastAll(t: Target, m: Machine, body: seq<Stmt>, n: nat, v: nat, k: nat, cs: CState)
    requires Sound(t)
    requires k <= n || k > n + YieldsIn(body)
    ensures ExecAll(t, m, LowerAll(body, n, v), Seek(k), cs) == Fell(Seek(k), cs)
    decreases body
  {
    if body != [] {
      var n1, v1 := n + Yields(body[0]), v + Repeats(body[0]);
      SeekPast(t, m, body[0], n, v, k, cs);
      SeekPastAll(t, m, body[1..], n1, v1, k, cs);
      ExecConcat(t, m, Lower(body[0], n, v), LowerAll(body[1..], n1, v1), Seek(k), cs);
    }
  }

  // ---- one statement, then one block --------------------------------------

  predicate Entry(s: Stmt, n: nat, v: nat, mode: Mode, cs: CState) {
    mode.Seek? ==> n < mode.k == cs.state <= n + Yields(s) && Live(s, n, v, mode.k, cs.counters)
  }

  predicate EntryIn(body: seq<Stmt>, n: nat, v: nat, mode: Mode, cs: CState) {
    mode.Seek? ==> n < mode.k == cs.state <= n + YieldsIn(body) && LiveIn(body, n, v, mode.k, cs.counters)
  }

  /** The generator code that matches entering `s` from above or at a label. */
  function At(s: Stmt, n: nat, v: nat, mode: Mode, cs: CState): seq<Flow>
    requires Entry(s, n, v, mode, cs)
  {
    match mode
    case Run => Emit(s)
    case Seek(k) => Rest(s, n, v, k, cs.counters)
  }

  function AtIn(body: seq<Stmt>, n: nat, v: nat, mode: Mode, cs: CState): seq<Flow>
    requires EntryIn(body, n, v, mode, cs)
  {
    match mode
    case Run => EmitAll(body)
    case Seek(k) => RestIn(body, n, v, k, cs.counters)
  }

  /** A loop that only yields: one look, and one more step if it has to yield. */
  lemma {:induction false} Poll(t: Target, m: Machine, f: Flow, after: seq<Flow>, due: int, w: World)
      returns (steps: nat)
    requires Sound(t)
    requires f.WhilePending? || f.While?
    requires f.body == [Yield]
    ensures 1 <= steps <= 2
    ensures var (stay, w1) := if f.While? then (Test(m, f.cond, w).0 == f.want, Test(m, f.cond, w).1) else Early(t, m, due, w);
            Steps(t, m, steps, Go([f] + after, due, w)) ==
              if stay then Paused([f] + after, due, w1) else Go(after, due, w1)
  {
    var (stay, w1) := if f.While? then (Test(m, f.cond, w).0 == f.want, Test(m, f.cond, w).1) else Early(t, m, due, w);
    StepOnce(t, m, f, after, due, w);
    steps := 1;
    if stay {
      assert [Yield] + [f] + after == [Yield] + ([f] + after);
      StepOnce(t, m, Yield, [f] + after, due, w1);
      StepsAdd(t, m, 1, 1, Go([f] + after, due, w));
      steps := 2;
    }
  }

  /** Entering a body: past the `pass` of an empty one. */
  lemma {:induction false} EnterSuite(t: Target, m: Machine, code: seq<Flow>, after: seq<Flow>, due: int,
                                      w: World) returns (steps: nat)
    requires Sound(t)
    ensures steps <= 1
    ensures Steps(t, m, steps, Go(Suite(code) + after, due, w)) == Go(code + after, due, w)
  {
    steps := if code == [] then 1 else 0;
    if code == [] {
      assert code + after == after;
      StepOnce(t, m, Pass, after, due, w);
    }
  }

  lemma {:induction false} SimulateWait(t: Target, m: Machine, s: Stmt, n: nat, v: nat, mode: Mode, cs: CState,
                                        after: seq<Flow>)
      returns (steps: nat)
    requires Sound(t)
    requires s.Wait? && n + Yields(s) < STOPPED
    requires Entry(s, n, v, mode, cs)
    ensures steps <= Weight(s)
    ensures Matches(s, n, v, cs.counters, ExecAll(t, m, Lower(s, n, v), mode, cs),
                    Steps(t, m, steps, Go(At(s, n, v, mode, cs) + after, cs.until, cs.world)), after)
  {
    hide ExecAll, Lower, LowerAll, EmitAll, RestIn, LiveIn, Step, Steps, Deadline, Early;
    ExecWait(t, m, s.amount, n, v, mode, cs);
    var cs1 := Exec(t, m, SetUntil(s.amount), mode, cs).s;
    var loop := WhilePending([Yield]);
    steps := Poll(t, m, loop, after, cs1.until, cs1.world);
    if mode.Run? {
      assert Emit(s) + after == [SetDeadline(s.amount)] + ([loop] + after);
      StepOnce(t, m, SetDeadline(s.amount), [loop] + after, cs.until, cs.world);
      StepsAdd(t, m, 1, steps, Go(Emit(s) + after, cs.until, cs.world));
      steps := 1 + steps;
    }
  }

  lemma {:induction false} SimulateWaitUntil(t: Target, m: Machine, s: Stmt, n: nat, v: nat, mode: Mode, cs: CState,
                                             after: seq<Flow>)
      returns (steps: nat)
    requires Sound(t)
    requires s.WaitUntil? && n + Yields(s) < STOPPED
    requires Entry(s, n, v, mode, cs)
    ensures steps <= Weight(s)
    ensures Matches(s, n, v, cs.counters, ExecAll(t, m, Lower(s, n, v), mode, cs),
                    Steps(t, m, steps, Go(At(s, n, v, mode, cs) + after, cs.until, cs.world)), after)
  {
    hide ExecAll, Lower, LowerAll, EmitAll, RestIn, LiveIn, Step, Steps, Test;
    ExecWaitUntil(t, m, s.cond, n, v, mode, cs);
    steps := Poll(t, m, While(s.cond, false, [Yield]), after, cs.until, cs.world);
  }

  /** Where the end of a FOREVER's or WHILE's body leaves the two sides: at the
      back-edge, or wherever the body stopped. */
  lemma {:induction false} RoundMatches(t: Target, s: Stmt, n: nat, v: nat, counters: map<nat, nat>, out: Outcome,
                                        g: Config, after: seq<Flow>)
    requires Sound(t)
    requires (s.Forever? || s.Loop?) && n + Yields(s) < STOPPED
    requires MatchesIn(s.body, n + 1, v, counters, out, g, [Yield] + Emit(s) + after)
    ensures out.Fell? ==> out.mode.Run? && g == Go([Yield] + (Emit(s) + after), out.s.until, out.s.world)
    ensures Matches(s, n, v, counters, Back(t, n + 1, out),
                    if out.Fell? then Paused(Emit(s) + after, out.s.until, out.s.world) else g, after)
  {
    hide RestIn, LiveIn, Emit, YieldsIn;
    if out.Fell? {
      var cs1 := Back(t, n + 1, out).s;
      assert Rest(s, n, v, n + 1, cs1.counters) == Emit(s);
      assert Suspended(s, n, v, n + 1, cs1, Paused(Emit(s) + after, cs1.until, cs1.world), after);
    } else if out.s.state != STOPPED {
      var k := out.s.state;
      InsideOf(s, n, v, k, out.s.counters, after);
      assert Suspended(s, n, v, k, out.s, g, after);
    }
  }

  /** The body of a FOREVER or a WHILE, then its back-edge. */
  lemma {:induction false} SimulateRound(t: Target, m: Machine, s: Stmt, n: nat, v: nat, mode: Mode, cs: CState,
                                         after: seq<Flow>)
      returns (steps: nat)
    requires Sound(t)
    requires (s.Forever? || s.Loop?) && n + Yields(s) < STOPPED
    requires EntryIn(s.body, n + 1, v, mode, cs)
    ensures steps <= WeightIn(s.body) + 1
    ensures Matches(s, n, v, cs.counters, Back(t, n + 1, ExecAll(t, m, LowerAll(s.body, n + 1, v), mode, cs)),
                    Steps(t, m, steps, Go(AtIn(s.body, n + 1, v, mode, cs) + ([Yield] + Emit(s) + after), cs.until, cs.world)), after)
    decreases s, 0
  {
    hide ExecAll, LowerAll, Emit, EmitAll, Step, Steps, WeightIn, RestIn, LiveIn, Matches, MatchesIn, Back;
    var onward := [Yield] + Emit(s) + after;
    var g := Go(AtIn(s.body, n + 1, v, mode, cs) + onward, cs.until, cs.world);
    steps := SimulateBlock(t, m, s.body, n + 1, v, mode, cs, onward);
    var out := ExecAll(t, m, LowerAll(s.body, n + 1, v), mode, cs);
    RoundMatches(t, s, n, v, cs.counters, out, Steps(t, m, steps, g), after);
    if out.Fell? {
      StepOnce(t, m, Yield, Emit(s) + after, out.s.until, out.s.world);
      StepsAdd(t, m, steps, 1, g);
      steps := steps + 1;
    }
  }

  /** From a FOREVER's head, or a WHILE's whose test lets it in, to the body's first statement. */
  lemma {:induction false} EnterBody(t: Target, m: Machine, s: Stmt, after: seq<Flow>, due: int, w: World)
      returns (steps: nat)
    requires Sound(t)
    requires s.Forever? || (s.Loop? && Test(m, s.cond, w).0 != s.until)
    ensures steps <= 2
    ensures Steps(t, m, steps, Go(Emit(s) + after, due, w)) ==
            Go(EmitAll(s.body) + ([Yield] + Emit(s) + after), due, if s.Loop? then Test(m, s.cond, w).1 else w)
  {
    hide EmitAll, Step, Steps, Suite;
    var code, onward := EmitAll(s.body), [Yield] + Emit(s) + after;
    var w1 := if s.Loop? then Test(m, s.cond, w).1 else w;
    StepOnce(t, m, Emit(s)[0], after, due, w);
    assert Suite(code) + [Yield] + Emit(s) + after == Suite(code) + onward;
    steps := EnterSuite(t, m, code, onward, due, w1);
    StepsAdd(t, m, 1, steps, Go(Emit(s) + after, due, w));
    steps := 1 + steps;
  }

  lemma {:induction false} SimulateForever(t: Target, m: Machine, s: Stmt, n: nat, v: nat, mode: Mode, cs: CState,
                                           after: seq<Flow>)
      returns (steps: nat)
    requires Sound(t)
    requires s.Forever? && n + Yields(s) < STOPPED
    requires Entry(s, n, v, mode, cs)
    ensures steps <= Weight(s)
    ensures Matches(s, n, v, cs.counters, ExecAll(t, m, Lower(s, n, v), mode, cs),
                    Steps(t, m, steps, Go(At(s, n, v, mode, cs) + after, cs.until, cs.world)), after)
    decreases s, 1
  {
    hide Exec, ExecAll, Lower, LowerAll, Emit, EmitAll, Step, Steps, WeightIn, RestIn, LiveIn, Matches, Back;
    ExecForever(t, m, s.body, n, v, mode, cs);
    var here := AtLabel(t, n + 1, mode, cs);
    var g := Go(At(s, n, v, mode, cs) + after, cs.until, cs.world);
    steps := 0;
    if here.mode.Run? {
      HeadOf(s, n, v, mode, cs);
      steps := EnterBody(t, m, s, after, cs.until, cs.world);
    } else {
      InsideOf(s, n, v, mode.k, cs.counters, after);
    }
    var more := SimulateRound(t, m, s, n, v, here.mode, here.s, after);
    StepsAdd(t, m, steps, more, g);
    steps := steps + more;
  }

  /** At its own label a FOREVER or a WHILE starts over. */
  lemma {:induction false} HeadOf(s: Stmt, n: nat, v: nat, mode: Mode, cs: CState)
    requires s.Forever? || s.Loop?
    requires Entry(s, n, v, mode, cs) && (mode.Seek? ==> mode.k == n + 1)
    ensures At(s, n, v, mode, cs) == Emit(s)
  {
  }

  lemma {:induction false} InsideOf(s: Stmt, n: nat, v: nat, k: nat, counters: map<nat, nat>, after: seq<Flow>)
    requires s.Forever? || s.Loop?
    requires n + 1 < k <= n + Yields(s)
    ensures Rest(s, n, v, k, counters) + after == RestIn(s.body, n + 1, v, k, counters) + ([Yield] + Emit(s) + after)
  {
    hide RestIn, Emit;
  }

  lemma {:induction false} SimulateLoop(t: Target, m: Machine, s: Stmt, n: nat, v: nat, mode: Mode, cs: CState,
                                        after: seq<Flow>)
      returns (steps: nat)
    requires Sound(t)
    requires s.Loop? && n + Yields(s) < STOPPED
    requires Entry(s, n, v, mode, cs)
    ensures steps <= Weight(s)
    ensures Matches(s, n, v, cs.counters, ExecAll(t, m, Lower(s, n, v), mode, cs),
                    Steps(t, m, steps, Go(At(s, n, v, mode, cs) + after, cs.until, cs.world)), after)
    decreases s, 1
  {
    hide Exec, ExecAll, Lower, LowerAll, Emit, EmitAll, Step, Steps, WeightIn, RestIn, LiveIn, Matches, Back, Test;
    ExecLoop(t, m, s.cond, s.until, s.body, n, v, mode, cs);
    var here := AtLabel(t, n + 1, mode, cs);
    var g := Go(At(s, n, v, mode, cs) + after, cs.until, cs.world);
    if here.mode.Seek? {
      InsideOf(s, n, v, mode.k, cs.counters, after);
      steps := SimulateRound(t, m, s, n, v, here.mode, here.s, after);
      return;
    }
    HeadOf(s, n, v, mode, cs);
    var (b, w) := Test(m, s.cond, cs.world);
    if b != s.until {
      steps := EnterBody(t, m, s, after, cs.until, cs.world);
      var more := SimulateRound(t, m, s, n, v, Run, here.s.(world := w), after);
      StepsAdd(t, m, steps, more, g);
      steps := steps + more;
    } else {
      steps := LeaveLoop(t, m, s, after, cs.until, cs.world);
      FellMatches(s, n, v, here.s.(world := w), after);
    }
  }

  lemma {:induction false} LeaveLoop(t: Target, m: Machine, s: Stmt, after: seq<Flow>, due: int, w: World)
      returns (steps: nat)
    requires Sound(t)
    requires s.Loop? && Test(m, s.cond, w).0 == s.until
    ensures steps == 1
    ensures Steps(t, m, steps, Go(Emit(s) + after, due, w)) == Go(after, due, Test(m, s.cond, w).1)
  {
    hide EmitAll, Step, Steps, Suite;
    StepOnce(t, m, Emit(s)[0], after, due, w);
    steps := 1;
  }

  /** What a REPEAT's generator still has to do once the body of the current round is over. */
  function Onward(s: Stmt, v: nat, counters: map<nat, nat>): seq<Flow>
    requires s.Repeat?
  {
    var left := Counter(counters, v + 1);
    [Yield] + [ForLeft(if left == 0 then 0 else left - 1, Suite(EmitAll(s.body)) + [Yield])]
  }

  lemma {:induction false} RepeatRoundMatches(t: Target, m: Machine, s: Stmt, n: nat, v: nat, counters: map<nat, nat>,
                                              out: Outcome, g: Config, after: seq<Flow>)
    requires Sound(t)
    requires s.Repeat? && n + Yields(s) < STOPPED && Counter(counters, v + 1) > 0
    requires MatchesIn(s.body, n + 1, v + 1, counters, out, g, Onward(s, v, counters) + after)
    ensures var loop := Onward(s, v, counters)[1..];
            && (out.Fell? ==> out.mode.Run? && g == Go([Yield] + (loop + after), out.s.until, out.s.world))
            && Matches(s, n, v, counters, Back(t, n + 1, CountDown(t, m, v + 1, out)),
                       if out.Fell? then Paused(loop + after, out.s.until, out.s.world) else g, after)
  {
    hide RestIn, LiveIn, EmitAll, Suite, YieldsIn, RepeatsIn;
    assert Counter(out.s.counters, v + 1) == Counter(counters, v + 1);
    if out.Fell? {
      var loop := Onward(s, v, counters)[1..];
      assert Onward(s, v, counters) + after == [Yield] + (loop + after);
      var cs1 := Back(t, n + 1, CountDown(t, m, v + 1, out)).s;
      assert Rest(s, n, v, n + 1, cs1.counters) == loop;
      assert Suspended(s, n, v, n + 1, cs1, Paused(loop + after, cs1.until, cs1.world), after);
    } else if out.s.state != STOPPED {
      var k := out.s.state;
      InsideRepeat(s, n, v, k, out.s.counters, after);
      assert Suspended(s, n, v, k, out.s, g, after);
    }
  }

  /** The body of a REPEAT, then its back-edge. */
  lemma {:induction false} SimulateRepeatRound(t: Target, m: Machine, s: Stmt, n: nat, v: nat, mode: Mode,
                                               cs: CState, after: seq<Flow>)
      returns (steps: nat)
    requires Sound(t)
    requires s.Repeat? && n + Yields(s) < STOPPED
    requires EntryIn(s.body, n + 1, v + 1, mode, cs)
    requires Counter(cs.counters, v + 1) > 0
    ensures steps <= WeightIn(s.body) + 1
    ensures Matches(s, n, v, cs.counters,
                    Back(t, n + 1, CountDown(t, m, v + 1, ExecAll(t, m, LowerAll(s.body, n + 1, v + 1), mode, cs))),
                    Steps(t, m, steps, Go(AtIn(s.body, n + 1, v + 1, mode, cs) + (Onward(s, v, cs.counters) + after), cs.until, cs.world)), after)
    decreases s, 0
  {
    hide ExecAll, LowerAll, EmitAll, Step, Steps, WeightIn, RestIn, LiveIn, Matches, MatchesIn, Back, CountDown, Onward;
    var onward := Onward(s, v, cs.counters) + after;
    var g := Go(AtIn(s.body, n + 1, v + 1, mode, cs) + onward, cs.until, cs.world);
    steps := SimulateBlock(t, m, s.body, n + 1, v + 1, mode, cs, onward);
    var out := ExecAll(t, m, LowerAll(s.body, n + 1, v + 1), mode, cs);
    RepeatRoundMatches(t, m, s, n, v, cs.counters, out, Steps(t, m, steps, g), after);
    if out.Fell? {
      OnwardYields(s, v, cs.counters);
      StepOnce(t, m, Yield, Onward(s, v, cs.counters)[1..] + after, out.s.until, out.s.world);
      StepsAdd(t, m, steps, 1, g);
      steps := steps + 1;
    }
  }

  lemma {:induction false} OnwardYields(s: Stmt, v: nat, counters: map<nat, nat>)
    requires s.Repeat?
    ensures |Onward(s, v, counters)| == 2
  {
  }

  /** What the latch of a REPEAT entered from above leaves behind; at a label
      inside, nothing. */
  function Latched(t: Target, m: Machine, s: Stmt, v: nat, mode: Mode, cs: CState): CState
    requires Sound(t) && s.Repeat?
  {
    Exec(t, m, SetCounter(v + 1, s.count), mode, cs).s
  }

  lemma {:induction false} LatchedFrame(t: Target, m: Machine, s: Stmt, n: nat, v: nat, mode: Mode, cs: CState)
    requires Sound(t) && s.Repeat? && Entry(s, n, v, mode, cs)
    ensures Frame(cs.counters, Latched(t, m, s, v, mode, cs).counters, v, Repeats(s))
    ensures Latched(t, m, s, v, mode, cs).until == cs.until
    ensures mode.Seek? ==> Latched(t, m, s, v, mode, cs) == cs
  {
    hide Live, Yields;
  }

  /** From a REPEAT's head or its own label to the first statement of a round, or past it. */
  lemma {:induction false} EnterRepeat(t: Target, m: Machine, s: Stmt, n: nat, v: nat, mode: Mode, cs: CState,
                                       after: seq<Flow>) returns (steps: nat)
    requires Sound(t) && s.Repeat? && Entry(s, n, v, mode, cs) && (mode.Seek? ==> mode.k == n + 1)
    ensures steps <= 3
    ensures var cs0 := Latched(t, m, s, v, mode, cs);
            Steps(t, m, steps, Go(At(s, n, v, mode, cs) + after, cs.until, cs.world)) ==
            Go(if Counter(cs0.counters, v + 1) > 0 then EmitAll(s.body) + (Onward(s, v, cs0.counters) + after) else after,
               cs.until, cs0.world)
  {
    hide EmitAll, Steps, Step, Suite, Live, RestIn;
    var cs0 := Latched(t, m, s, v, mode, cs);
    var round, left := Suite(EmitAll(s.body)) + [Yield], Counter(cs0.counters, v + 1);
    var g := Go(At(s, n, v, mode, cs) + after, cs.until, cs.world);
    steps := 0;
    StepsZero(t, m, g);
    if mode.Run? {
      StepOnce(t, m, ForRange(s.count, round), after, cs.until, cs.world);
      steps := 1;
    }
    StepOnce(t, m, ForLeft(left, round), after, cs.until, cs0.world);
    StepsAdd(t, m, steps, 1, g);
    steps := steps + 1;
    if left > 0 {
      var more := EnterRound(t, m, s, v, cs0.counters, after, cs.until, cs0.world);
      StepsAdd(t, m, steps, more, g);
      steps := steps + more;
    }
  }

  lemma {:induction false} EnterRound(t: Target, m: Machine, s: Stmt, v: nat, counters: map<nat, nat>, after: seq<Flow>,
                                      until: int, w: World) returns (more: nat)
    requires Sound(t) && s.Repeat? && Counter(counters, v + 1) > 0
    ensures more <= 1
    ensures var round := Suite(EmitAll(s.body)) + [Yield];
            Steps(t, m, more, Go(round + [ForLeft(Counter(counters, v + 1) - 1, round)] + after, until, w)) ==
            Go(EmitAll(s.body) + (Onward(s, v, counters) + after), until, w)
  {
    hide EmitAll, Steps, Step, Suite;
    var round, left := Suite(EmitAll(s.body)) + [Yield], Counter(counters, v + 1);
    var code, onward := EmitAll(s.body), Onward(s, v, counters) + after;
    assert round + [ForLeft(left - 1, round)] + after == Suite(code) + onward;
    more := EnterSuite(t, m, code, onward, until, w);
  }

  lemma {:induction false} InsideRepeat(s: Stmt, n: nat, v: nat, k: nat, counters: map<nat, nat>, after: seq<Flow>)
    requires s.Repeat? && n + 1 < k <= n + Yields(s)
    ensures Rest(s, n, v, k, counters) + after ==
            RestIn(s.body, n + 1, v + 1, k, counters) + (Onward(s, v, counters) + after)
  {
    hide RestIn, EmitAll, Suite;
  }

  lemma {:induction false} MatchesSince(s: Stmt, n: nat, v: nat, before: map<nat, nat>, counters: map<nat, nat>,
                                        out: Outcome, g: Config, after: seq<Flow>)
    requires Frame(before, counters, v, Repeats(s)) && Matches(s, n, v, counters, out, g, after)
    ensures Matches(s, n, v, before, out, g, after)
  {
    hide Suspended, Repeats;
  }

  lemma {:induction false} SimulateRepeat(t: Target, m: Machine, s: Stmt, n: nat, v: nat, mode: Mode, cs: CState,
                                          after: seq<Flow>)
      returns (steps: nat)
    requires Sound(t)
    requires s.Repeat? && n + Yields(s) < STOPPED
    requires Entry(s, n, v, mode, cs)
    ensures steps <= Weight(s)
    ensures Matches(s, n, v, cs.counters, ExecAll(t, m, Lower(s, n, v), mode, cs),
                    Steps(t, m, steps, Go(At(s, n, v, mode, cs) + after, cs.until, cs.world)), after)
    decreases s, 1
  {
    hide ExecAll, Exec, Lower, LowerAll, Emit, EmitAll, Step, Steps, WeightIn, RestIn, LiveIn, Matches, Back, CountDown, Frame,
         Onward;
    ExecRepeat(t, m, s.count, s.body, n, v, mode, cs);
    var cs0 := Latched(t, m, s, v, mode, cs);
    LatchedFrame(t, m, s, n, v, mode, cs);
    var here := AtLabel(t, n + 1, mode, cs0);
    var g := Go(At(s, n, v, mode, cs) + after, cs.until, cs.world);
    var out := ExecAll(t, m, Lower(s, n, v), mode, cs);
    if here.mode.Seek? {
      InsideRepeat(s, n, v, mode.k, cs.counters, after);
      steps := SimulateRepeatRound(t, m, s, n, v, here.mode, here.s, after);
    } else {
      steps := EnterRepeat(t, m, s, n, v, mode, cs, after);
      if Counter(cs0.counters, v + 1) > 0 {
        var more := SimulateRepeatRound(t, m, s, n, v, Run, here.s, after);
        StepsAdd(t, m, steps, more, g);
        steps := steps + more;
      } else {
        FellMatches(s, n, v, here.s, after);
      }
    }
    MatchesSince(s, n, v, cs.counters, cs0.counters, out, Steps(t, m, steps, g), after);
  }

  lemma {:induction false} EnterBranch(t: Target, m: Machine, s: Stmt, due: int, world: World,
                                       after: seq<Flow>) returns (steps: nat)
    requires Sound(t)
    requires s.If?
    ensures steps <= 2
    ensures var (b, w) := Test(m, s.cond, world);
            Steps(t, m, steps, Go(Emit(s) + after, due, world)) ==
            Go(EmitAll(if b then s.body else s.orelse) + after, due, w)
  {
    hide Steps;
    var (b, w) := Test(m, s.cond, world);
    StepOnce(t, m, Emit(s)[0], after, due, world);
    var code := EmitAll(if b then s.body else s.orelse);
    steps := 1;
    if b || s.orelse != [] {
      var more := EnterSuite(t, m, code, after, due, w);
      StepsAdd(t, m, 1, more, Go(Emit(s) + after, due, world));
      steps := 1 + more;
    }
  }

  /** Branch `first` of an IF, or the other. */
  lemma {:induction false} BranchMatches(s: Stmt, n: nat, v: nat, first: bool, counters: map<nat, nat>, out: Outcome,
                                         g: Config, after: seq<Flow>)
    requires s.If?
    requires if first then MatchesIn(s.body, n, v, counters, out, g, after)
             else MatchesIn(s.orelse, n + YieldsIn(s.body), v + RepeatsIn(s.body), counters, out, g, after)
    ensures Matches(s, n, v, counters, out, g, after)
  {
    hide RestIn, LiveIn, YieldsIn, RepeatsIn;
    if out.Returned? && out.s.state != STOPPED {
      assert Suspended(s, n, v, out.s.state, out.s, g, after);
    }
  }

  lemma {:induction false} ExecBranch(t: Target, m: Machine, s: Stmt, n: nat, v: nat, mode: Mode, cs: CState)
    requires Sound(t) && s.If? && Entry(s, n, v, mode, cs)
    ensures var n1, v1 := n + YieldsIn(s.body), v + RepeatsIn(s.body);
            var (b, w) := Test(m, s.cond, cs.world);
            ExecAll(t, m, Lower(s, n, v), mode, cs) ==
            if mode.Run? then
              ExecAll(t, m, if b then LowerAll(s.body, n, v) else LowerAll(s.orelse, n1, v1), Run, cs.(world := w))
            else
              var out := ExecAll(t, m, LowerAll(s.body, n, v), mode, cs);
              if out.Fell? && out.mode.Seek? then ExecAll(t, m, LowerAll(s.orelse, n1, v1), out.mode, out.s) else out
  {
    hide ExecAll, LowerAll, Live;
    ExecOne(t, m, Lower(s, n, v)[0], mode, cs);
  }

  lemma {:induction false} SimulateIf(t: Target, m: Machine, s: Stmt, n: nat, v: nat, mode: Mode, cs: CState,
                                      after: seq<Flow>)
      returns (steps: nat)
    requires Sound(t)
    requires s.If? && n + Yields(s) < STOPPED
    requires Entry(s, n, v, mode, cs)
    ensures steps <= Weight(s)
    ensures Matches(s, n, v, cs.counters, ExecAll(t, m, Lower(s, n, v), mode, cs),
                    Steps(t, m, steps, Go(At(s, n, v, mode, cs) + after, cs.until, cs.world)), after)
    decreases s, 1
  {
    hide ExecAll, Exec, Lower, LowerAll, Emit, EmitAll, Step, Steps, Test, WeightIn, RestIn, LiveIn, Matches, MatchesIn,
         RepeatsIn;
    var n1, v1 := n + YieldsIn(s.body), v + RepeatsIn(s.body);
    ExecBranch(t, m, s, n, v, mode, cs);
    var g := Go(At(s, n, v, mode, cs) + after, cs.until, cs.world);
    var out := ExecAll(t, m, Lower(s, n, v), mode, cs);
    if mode.Seek? && mode.k <= n1 {
      steps := SimulateBlock(t, m, s.body, n, v, mode, cs, after);
      BodyFound(s, n, v, cs.counters, ExecAll(t, m, LowerAll(s.body, n, v), mode, cs), Steps(t, m, steps, g), after);
      BranchMatches(s, n, v, true, cs.counters, out, Steps(t, m, steps, g), after);
    } else if mode.Seek? {
      SeekPastAll(t, m, s.body, n, v, mode.k, cs);
      steps := SimulateBlock(t, m, s.orelse, n1, v1, mode, cs, after);
      BranchMatches(s, n, v, false, cs.counters, out, Steps(t, m, steps, g), after);
    } else {
      var (b, w) := Test(m, s.cond, cs.world);
      steps := EnterBranch(t, m, s, cs.until, cs.world, after);
      var body := if b then s.body else s.orelse;
      var more := SimulateBlock(t, m, body, if b then n else n1, if b then v else v1, Run, cs.(world := w), after);
      StepsAdd(t, m, steps, more, g);
      steps := steps + more;
      BranchMatches(s, n, v, b, cs.counters, out, Steps(t, m, steps, g), after);
    }
  }

  /** A block that was entered is left running. */
  lemma {:induction false} BodyFound(s: Stmt, n: nat, v: nat, counters: map<nat, nat>, out: Outcome, g: Config,
                                     after: seq<Flow>)
    requires s.If? && MatchesIn(s.body, n, v, counters, out, g, after)
    ensures out.Fell? ==> out.mode.Run?
  {
  }

  lemma {:induction false} SimulateStmt(t: Target, m: Machine, s: Stmt, n: nat, v: nat, mode: Mode, cs: CState,
                                        after: seq<Flow>)
      returns (steps: nat)
    requires Sound(t)
    requires n + Yields(s) < STOPPED
    requires Entry(s, n, v, mode, cs)
    ensures steps <= Weight(s)
    ensures Matches(s, n, v, cs.counters, ExecAll(t, m, Lower(s, n, v), mode, cs),
                    Steps(t, m, steps, Go(At(s, n, v, mode, cs) + after, cs.until, cs.world)), after)
    decreases s, 2
  {
    hide ExecAll, LowerAll, EmitAll, Step, Steps, WeightIn, RestIn, LiveIn;
    match s
    case Act(a) =>
      ExecOne(t, m, Plain(a), mode, cs);
      StepOnce(t, m, Do(a), after, cs.until, cs.world);
      steps := 1;
    case Wait(_) => steps := SimulateWait(t, m, s, n, v, mode, cs, after);
    case WaitUntil(_) => steps := SimulateWaitUntil(t, m, s, n, v, mode, cs, after);
    case Forever(_) => steps := SimulateForever(t, m, s, n, v, mode, cs, after);
    case Repeat(_, _) => steps := SimulateRepeat(t, m, s, n, v, mode, cs, after);
    case Loop(_, _, _) => steps := SimulateLoop(t, m, s, n, v, mode, cs, after);
    case If(_, _, _) => steps := SimulateIf(t, m, s, n, v, mode, cs, after);
    case Stop =>
      ExecStop(t, m, n, v, mode, cs);
      StepOnce(t, m, Return, after, cs.until, cs.world);
      steps := 1;
  }

  lemma {:induction false} SimulateBlock(t: Target, m: Machine, body: seq<Stmt>, n: nat, v: nat, mode: Mode, cs: CState,
                      after: seq<Flow>) returns (steps: nat)
    requires Sound(t)
    requires n + YieldsIn(body) < STOPPED
    requires EntryIn(body, n, v, mode, cs)
    ensures steps <= WeightIn(body)
    ensures MatchesIn(body, n, v, cs.counters, ExecAll(t, m, LowerAll(body, n, v), mode, cs),
                      Steps(t, m, steps, Go(AtIn(body, n, v, mode, cs) + after, cs.until, cs.world)), after)
    decreases body, 0
  {
    hide Exec, ExecAll, Lower, Emit, Step, Steps, Enter, Live, LiveIn, Rest, Weight, Yields, Repeats, Matches, MatchesIn;
    steps := 0;
    StepsZero(t, m, Go(AtIn(body, n, v, mode, cs) + after, cs.until, cs.world));
    if body == [] {
      assert [] + after == after;
      NothingMatches(t, m, n, v, cs, after);
      return;
    }
    var s, rest := body[0], body[1..];
    var n1, v1 := n + Yields(s), v + Repeats(s);
    ExecConcat(t, m, Lower(s, n, v), LowerAll(rest, n1, v1), mode, cs);
    var g := Go(AtIn(body, n, v, mode, cs) + after, cs.until, cs.world);
    var onward := EmitAll(rest) + after;
    EntryBelow(body, n, v, mode, cs);
    if mode.Seek? && mode.k > n1 {
      SeekPast(t, m, s, n, v, mode.k, cs);
      assert g.code == AtIn(rest, n1, v1, mode, cs) + after;
      steps := SimulateBlock(t, m, rest, n1, v1, mode, cs, after);
      TailMatches(body, n, v, cs.counters, cs.counters, ExecAll(t, m, LowerAll(rest, n1, v1), mode, cs),
                  Steps(t, m, steps, g), after);
      return;
    }
    assert g.code == At(s, n, v, mode, cs) + onward;
    steps := SimulateStmt(t, m, s, n, v, mode, cs, onward);
    var out := ExecAll(t, m, Lower(s, n, v), mode, cs);
    HeadMatches(body, n, v, cs.counters, out, Steps(t, m, steps, g), after);
    if out.Fell? {
      var more := SimulateBlock(t, m, rest, n1, v1, Run, out.s, after);
      StepsAdd(t, m, steps, more, g);
      steps := steps + more;
      TailMatches(body, n, v, cs.counters, out.s.counters, ExecAll(t, m, LowerAll(rest, n1, v1), Run, out.s),
                  Steps(t, m, steps, g), after);
    }
  }

  lemma {:induction false} NothingMatches(t: Target, m: Machine, n: nat, v: nat, cs: CState, after: seq<Flow>)
    requires Sound(t)
    ensures ExecAll(t, m, LowerAll([], n, v), Run, cs) == Fell(Run, cs)
    ensures MatchesIn([], n, v, cs.counters, Fell(Run, cs), Go(after, cs.until, cs.world), after)
  {
  }

  /** A label inside a block is in its first statement or in the rest of it. */
  lemma {:induction false} EntryBelow(body: seq<Stmt>, n: nat, v: nat, mode: Mode, cs: CState)
    requires body != [] && EntryIn(body, n, v, mode, cs)
    ensures var n1, v1 := n + Yields(body[0]), v + Repeats(body[0]);
            if mode.Seek? && mode.k > n1 then EntryIn(body[1..], n1, v1, mode, cs) else Entry(body[0], n, v, mode, cs)
  {
    hide Live, Yields, Repeats;
  }

  lemma {:induction false} HeadMatches(body: seq<Stmt>, n: nat, v: nat, counters: map<nat, nat>, out: Outcome,
                                       g: Config, after: seq<Flow>)
    requires body != []
    requires Matches(body[0], n, v, counters, out, g, EmitAll(body[1..]) + after)
    ensures Frame(counters, out.s.counters, v, Repeats(body[0]))
    ensures if out.Fell? then out.mode.Run? && g == Go(EmitAll(body[1..]) + after, out.s.until, out.s.world)
            else MatchesIn(body, n, v, counters, out, g, after)
  {
    hide Live, Rest, Yields, Repeats, EmitAll;
    if out.Returned? && out.s.state != STOPPED {
      var k, onward := out.s.state, EmitAll(body[1..]) + after;
      assert RestIn(body, n, v, k, out.s.counters) + after == Rest(body[0], n, v, k, out.s.counters) + onward;
      assert SuspendedIn(body, n, v, k, out.s, g, after);
    }
  }

  lemma {:induction false} TailMatches(body: seq<Stmt>, n: nat, v: nat, before: map<nat, nat>, counters: map<nat, nat>,
                                       out: Outcome, g: Config, after: seq<Flow>)
    requires body != [] && Frame(before, counters, v, Repeats(body[0]))
    requires MatchesIn(body[1..], n + Yields(body[0]), v + Repeats(body[0]), counters, out, g, after)
    ensures MatchesIn(body, n, v, before, out, g, after)
  {
    hide Live, Rest, Yields, Repeats, EmitAll;
    if out.Returned? && out.s.state != STOPPED {
      assert SuspendedIn(body, n, v, out.s.state, out.s, g, after);
    }
  }
}
