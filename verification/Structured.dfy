/** A small-step machine for structured code that can yield: the generators the
    MicroPython back end emits, and the blocking C of a lone script. */
module Structured {
  import opened Machine

  datatype Flow =
    | Do(act: nat)
    | SetDeadline(amount: nat)
    | WhilePending(body: seq<Flow>)
    | While(cond: nat, want: bool, body: seq<Flow>)
    | Always(body: seq<Flow>)
    | ForRange(count: nat, body: seq<Flow>)              // the count is read once
    | ForLeft(left: nat, body: seq<Flow>)                // a ForRange under way
    | Branch(cond: nat, body: seq<Flow>, orelse: seq<Flow>)
    | Yield
    | Return
    | Pass
    | Delay(amount: nat)                                 // blocks
    | ForBelow(count: nat, body: seq<Flow>)              // the count is read every time round
    | ForFrom(index: nat, count: nat, body: seq<Flow>)   // a ForBelow under way
    | Halt                                               // for (;;) ;

  /** `code` is what remains to be done: a loop body is run by putting it in
      front of its own loop. */
  datatype Config =
    | Go(code: seq<Flow>, due: int, world: World)
    | Paused(code: seq<Flow>, due: int, world: World)
    | Over(world: World)

  function Step(t: Target, m: Machine, c: Config): Config
    requires Sound(t)
  {
    if !c.Go? then c
    else if c.code == [] then Over(c.world)
    else Enter(t, m, c.code[0], c.code[1..], c.due, c.world)
  }

  function Enter(t: Target, m: Machine, f: Flow, rest: seq<Flow>, due: int, w: World): Config
    requires Sound(t)
  {
    match f
    case Do(a) => Go(rest, due, Perform(m, a, w))
    case SetDeadline(n) =>
      var (until, w1) := Deadline(t, m, n, w);
      Go(rest, until, w1)
    case WhilePending(body) =>
      var (early, w1) := Early(t, m, due, w);
      Go(if early then body + [f] + rest else rest, due, w1)
    case While(cond, want, body) =>
      var (b, w1) := Test(m, cond, w);
      Go(if b == want then body + [f] + rest else rest, due, w1)
    case Always(body) => Go(body + [f] + rest, due, w)
    case ForRange(n, body) =>
      var (i, w1) := Number(m, n, w);
      Go([ForLeft(Latch(t, i), body)] + rest, due, w1)
    case ForLeft(left, body) =>
      Go(if left > 0 then body + [ForLeft(left - 1, body)] + rest else rest, due, w)
    case Branch(cond, body, orelse) =>
      var (b, w1) := Test(m, cond, w);
      Go((if b then body else orelse) + rest, due, w1)
    case Yield => Paused(rest, due, w)
    case Return => Over(w)
    case Pass => Go(rest, due, w)
    case Delay(n) => Go(rest, due, Begins(m, n, w).1)
    case ForBelow(n, body) => Go([ForFrom(0, n, body)] + rest, due, w)
    case ForFrom(i, n, body) =>
      var (count, w1) := Number(m, n, w);
      Go(if i < Latch(t, count) then body + [ForFrom(i + 1, n, body)] + rest else rest, due, w1)
    case Halt => Go([f] + rest, due, w)
  }

  function Steps(t: Target, m: Machine, n: nat, c: Config): Config
    requires Sound(t)
    decreases n
  {
    if n == 0 then c else Steps(t, m, n - 1, Step(t, m, c))
  }

  lemma {:induction false} StepsZero(t: Target, m: Machine, c: Config)
    requires Sound(t)
    ensures Steps(t, m, 0, c) == c
  {
  }

  lemma {:induction false} StepsAdd(t: Target, m: Machine, a: nat, b: nat, c: Config)
    requires Sound(t)
    ensures Steps(t, m, a + b, c) == Steps(t, m, b, Steps(t, m, a, c))
    decreases a
  {
    if a > 0 {
      StepsAdd(t, m, a - 1, b, Step(t, m, c));
    }
  }

  lemma {:induction false} StepsSettled(t: Target, m: Machine, n: nat, c: Config)
    requires Sound(t) && !c.Go?
    ensures Steps(t, m, n, c) == c
    decreases n
  {
    if n > 0 {
      StepsSettled(t, m, n - 1, c);
    }
  }

  lemma {:induction false} StepHead(t: Target, m: Machine, f: Flow, rest: seq<Flow>, due: int, w: World)
    requires Sound(t)
    ensures Step(t, m, Go([f] + rest, due, w)) == Enter(t, m, f, rest, due, w)
  {
    assert ([f] + rest)[1..] == rest;
  }

  lemma {:induction false} StepOnce(t: Target, m: Machine, f: Flow, rest: seq<Flow>, due: int, w: World)
    requires Sound(t)
    ensures Steps(t, m, 1, Go([f] + rest, due, w)) == Enter(t, m, f, rest, due, w)
  {
    var code := [f] + rest;
    assert code[1..] == rest;
    assert Steps(t, m, 1, Go(code, due, w)) == Steps(t, m, 0, Step(t, m, Go(code, due, w)));
  }
}
