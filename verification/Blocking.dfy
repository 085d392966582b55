/** The blocking C a lone script gets, and why the task form of the same script
    has the same effects. */
module Blocking {
  import opened Script
  import opened Machine
  import opened Structured
  import opened Generator

  function EmitC(s: Stmt): seq<Flow>
    decreases s
  {
    match s
    case Act(a) => [Do(a)]
    case Wait(e) => [Delay(e)]
    case WaitUntil(c) => [While(c, false, [])]
    case Forever(body) => [Always(EmitCAll(body))]
    case Repeat(e, body) => [ForBelow(e, EmitCAll(body))]
    case Loop(c, until, body) => [While(c, !until, EmitCAll(body))]
    case If(c, body, orelse) => [Branch(c, EmitCAll(body), EmitCAll(orelse))]
    case Stop => [Halt]
  }

  function EmitCAll(body: seq<Stmt>): seq<Flow>
    decreases body
  {
    if body == [] then [] else EmitC(body[0]) + EmitCAll(body[1..])
  }

  lemma {:induction false} EmitCAllSnoc(done: seq<Stmt>, s: Stmt)
    ensures EmitCAll(done + [s]) == EmitCAll(done) + EmitC(s)
    ensures RepeatsIn(done + [s]) == RepeatsIn(done) + Repeats(s)
    decreases done
  {
    var all := done + [s];
    if done == [] {
      assert all[1..] == [];
    } else {
      assert all[0] == done[0] && all[1..] == done[1..] + [s];
      EmitCAllSnoc(done[1..], s);
      assert EmitC(done[0]) + (EmitCAll(done[1..]) + EmitC(s)) == EmitC(done[0]) + EmitCAll(done[1..]) + EmitC(s);
    }
  }

  class BlockingEmitter {
    var counter: nat   // loop variables handed out so far

    constructor ()
      ensures counter == 0
    {
      counter := 0;
    }

    method StmtsC(body: seq<Stmt>) returns (out: seq<Flow>)
      modifies this
      ensures out == EmitCAll(body)
      ensures counter == old(counter) + RepeatsIn(body)
      decreases body
    {
      out := [];
      for i := 0 to |body|
        invariant out == EmitCAll(body[..i])
        invariant counter == old(counter) + RepeatsIn(body[..i])
      {
        var node := body[i];
        assert body[..i + 1] == body[..i] + [node];
        EmitCAllSnoc(body[..i], node);
        match node {
          case Act(a) =>
            out := out + [Do(a)];
          case Wait(e) =>
            out := out + [Delay(e)];
          case WaitUntil(c) =>
            out := out + [While(c, false, [])];
          case Forever(inner) =>
            var lines := StmtsC(inner);
            out := out + [Always(lines)];
          case Repeat(e, inner) =>
            counter := counter + 1;
            var lines := StmtsC(inner);
            out := out + [ForBelow(e, lines)];
          case Loop(c, until, inner) =>
            var lines := StmtsC(inner);
            out := out + [While(c, !until, lines)];
          case If(c, inner, orelse) =>
            var lines := StmtsC(inner);
            var other: seq<Flow> := [];
            if orelse != [] {
              other := StmtsC(orelse);
            }
            out := out + [Branch(c, lines, other)];
          case Stop =>
            out := out + [Halt];
        }
      }
      assert body[..|body|] == body;
    }
  }

  // ---- the hypotheses -----------------------------------------------------

  /** Inputs held fixed: nothing but the globals decides what is read or written. */
  ghost predicate Steady(m: Machine) {
    && (forall c, g, e, e1 :: m.test(c, g, e).0 == m.test(c, g, e1).0)
    && (forall n, g, e, e1 :: m.number(n, g, e).0 == m.number(n, g, e1).0)
    && (forall a, g, e, e1 :: m.act(a, g, e).0 == m.act(a, g, e1).0)
  }

  function Acts(s: Stmt): set<nat>
    decreases s
  {
    match s
    case Act(a) => {a}
    case Forever(body) => ActsIn(body)
    case Repeat(_, body) => ActsIn(body)
    case Loop(_, _, body) => ActsIn(body)
    case If(_, body, orelse) => ActsIn(body) + ActsIn(orelse)
    case _ => {}
  }

  function ActsIn(body: seq<Stmt>): set<nat>
    decreases body
  {
    if body == [] then {} else Acts(body[0]) + ActsIn(body[1..])
  }

  /** None of `acts` changes what the count `n` reads. */
  ghost predicate Keeps(m: Machine, n: nat, acts: set<nat>) {
    forall a, g, e | a in acts :: m.number(n, m.act(a, g, e).0, e).0 == m.number(n, g, e).0
  }

  /** No REPEAT changes its own count. */
  ghost predicate CountsKept(m: Machine, s: Stmt)
    decreases s
  {
    match s
    case Forever(body) => CountsKeptIn(m, body)
    case Repeat(n, body) => Keeps(m, n, ActsIn(body)) && CountsKeptIn(m, body)
    case Loop(_, _, body) => CountsKeptIn(m, body)
    case If(_, body, orelse) => CountsKeptIn(m, body) && CountsKeptIn(m, orelse)
    case _ => true
  }

  ghost predicate CountsKeptIn(m: Machine, body: seq<Stmt>)
    decreases body
  {
    body != [] ==> CountsKept(m, body[0]) && CountsKeptIn(m, body[1..])
  }

  // ---- one remaining program, two codes -----------------------------------

  /** What is left to do, independent of the back end. */
  datatype Item =
    | Begin(s: Stmt)
    | Waiting(amount: nat)
    | Tick
    | Skip
    | Left(left: nat, index: nat, count: nat, body: seq<Stmt>)

  function TaskOf(item: Item): seq<Flow> {
    match item
    case Begin(s) => Emit(s)
    case Waiting(_) => [WhilePending([Yield])]
    case Tick => [Yield]
    case Skip => [Pass]
    case Left(left, _, _, body) => [ForLeft(left, Suite(EmitAll(body)) + [Yield])]
  }

  function PlainOf(item: Item): seq<Flow> {
    match item
    case Begin(s) => EmitC(s)
    case Waiting(_) => []
    case Tick => []
    case Skip => []
    case Left(_, index, n, body) => [ForFrom(index, n, EmitCAll(body))]
  }

  function TaskFlow(items: seq<Item>): seq<Flow> {
    if items == [] then [] else TaskOf(items[0]) + TaskFlow(items[1..])
  }

  function PlainFlow(items: seq<Item>): seq<Flow> {
    if items == [] then [] else PlainOf(items[0]) + PlainFlow(items[1..])
  }

  function Begun(body: seq<Stmt>): seq<Item> {
    if body == [] then [] else [Begin(body[0])] + Begun(body[1..])
  }

  function Body(body: seq<Stmt>): seq<Item> {
    if body == [] then [Skip] else Begun(body)
  }

  lemma {:induction false} CodeConcat(a: seq<Item>, b: seq<Item>)
    ensures TaskFlow(a + b) == TaskFlow(a) + TaskFlow(b)
    ensures PlainFlow(a + b) == PlainFlow(a) + PlainFlow(b)
    decreases a
  {
    hide TaskOf, PlainOf;
    if a == [] {
      assert a + b == b;
    } else {
      assert (a + b)[0] == a[0] && (a + b)[1..] == a[1..] + b;
      CodeConcat(a[1..], b);
    }
  }

  lemma {:induction false} BegunCode(body: seq<Stmt>)
    ensures TaskFlow(Begun(body)) == EmitAll(body)
    ensures PlainFlow(Begun(body)) == EmitCAll(body)
    decreases body
  {
    if body != [] {
      assert Begun(body)[1..] == Begun(body[1..]);
      BegunCode(body[1..]);
    }
  }

  /** Starting a loop body in front of `rest`. */
  lemma {:induction false} BodyCode(body: seq<Stmt>, rest: seq<Item>)
    ensures TaskFlow(Body(body) + rest) == Suite(EmitAll(body)) + TaskFlow(rest)
    ensures PlainFlow(Body(body) + rest) == EmitCAll(body) + PlainFlow(rest)
  {
    CodeConcat(Body(body), rest);
    BegunCode(body);
    if body == [] {
      assert TaskFlow([Skip]) == [Pass] && PlainFlow([Skip]) == [] by {
        assert [Skip][1..] == [];
      }
    } else {
      assert EmitAll(body) != [] by {
        assert |Emit(body[0])| > 0;
      }
    }
  }

  // ---- the loops under way keep their counts ------------------------------

  function Count(m: Machine, n: nat, w: World): int {
    m.number(n, w.globals, w.env).0
  }

  /** `before` holds the leaf statements that may still run before `items`. */
  ghost predicate Ready(m: Machine, t: Target, items: seq<Item>, before: set<nat>, w: World)
    requires Sound(t)
    decreases items
  {
    items != [] ==>
      var rest := items[1..];
      match items[0]
      case Begin(s) => CountsKept(m, s) && Ready(m, t, rest, before + Acts(s), w)
      case Left(left, index, n, body) =>
        && left + index == Latch(t, Count(m, n, w))
        && Keeps(m, n, before + ActsIn(body))
        && CountsKeptIn(m, body)
        && Ready(m, t, rest, before + ActsIn(body), w)
      case _ => Ready(m, t, rest, before, w)
  }

  /** Fewer statements to come, and at most one of them done. */
  lemma {:induction false} ReadyAfter(m: Machine, t: Target, items: seq<Item>, before: set<nat>, w: World,
                                      fewer: set<nat>, w1: World)
    requires Sound(t)
    requires Steady(m)
    requires Ready(m, t, items, before, w)
    requires fewer <= before
    requires w1.globals == w.globals || exists a :: a in before && w1.globals == m.act(a, w.globals, w.env).0
    ensures Ready(m, t, items, fewer, w1)
    decreases items
  {
    if items != [] {
      match items[0]
      case Begin(s) => ReadyAfter(m, t, items[1..], before + Acts(s), w, fewer + Acts(s), w1);
      case Left(_, _, n, body) =>
        ReadyAfter(m, t, items[1..], before + ActsIn(body), w, fewer + ActsIn(body), w1);
        CountAfter(m, n, before + ActsIn(body), w, w1);
      case _ => ReadyAfter(m, t, items[1..], before, w, fewer, w1);
    }
  }

  lemma {:induction false} CountAfter(m: Machine, n: nat, before: set<nat>, w: World, w1: World)
    requires Steady(m) && Keeps(m, n, before)
    requires w1.globals == w.globals || exists a :: a in before && w1.globals == m.act(a, w.globals, w.env).0
    ensures Count(m, n, w1) == Count(m, n, w)
  {
    assert Count(m, n, w1) == m.number(n, w1.globals, w.env).0;
  }

  lemma {:induction false} ReadyBegun(m: Machine, t: Target, body: seq<Stmt>, rest: seq<Item>, before: set<nat>,
                                      w: World)
    requires Sound(t)
    requires CountsKeptIn(m, body)
    requires Ready(m, t, rest, before + ActsIn(body), w)
    ensures Ready(m, t, Begun(body) + rest, before, w)
    decreases body
  {
    var items := Begun(body) + rest;
    if body == [] {
      assert items == rest && before + ActsIn(body) == before;
    } else {
      assert items[0] == Begin(body[0]) && items[1..] == Begun(body[1..]) + rest;
      assert before + ActsIn(body) == before + Acts(body[0]) + ActsIn(body[1..]);
      ReadyBegun(m, t, body[1..], rest, before + Acts(body[0]), w);
    }
  }

  lemma {:induction false} ReadyBody(m: Machine, t: Target, body: seq<Stmt>, rest: seq<Item>, w: World)
    requires Sound(t)
    requires CountsKeptIn(m, body)
    requires Ready(m, t, rest, ActsIn(body), w)
    ensures Ready(m, t, Body(body) + rest, {}, w)
  {
    assert {} + ActsIn(body) == ActsIn(body);
    if body == [] {
      assert ([Skip] + rest)[1..] == rest;
    } else {
      ReadyBegun(m, t, body, rest, {}, w);
    }
  }
}
