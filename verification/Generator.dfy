/** The MicroPython form of one cooperative task: a generator. */
module Generator {
  import opened Script
  import opened Structured

  function Emit(s: Stmt): seq<Flow>
    decreases s
  {
    match s
    case Act(a) => [Do(a)]
    case Wait(e) => [SetDeadline(e), WhilePending([Yield])]
    case WaitUntil(c) => [While(c, false, [Yield])]
    case Forever(body) => [Always(Suite(EmitAll(body)) + [Yield])]
    case Repeat(e, body) => [ForRange(e, Suite(EmitAll(body)) + [Yield])]
    case Loop(c, until, body) => [While(c, !until, Suite(EmitAll(body)) + [Yield])]
    case If(c, body, orelse) =>
      [Branch(c, Suite(EmitAll(body)), if orelse == [] then [] else Suite(EmitAll(orelse)))]
    case Stop => [Return]
  }

  function EmitAll(body: seq<Stmt>): seq<Flow>
    decreases body
  {
    if body == [] then [] else Emit(body[0]) + EmitAll(body[1..])
  }

  /** Python has no empty block. */
  function Suite(inner: seq<Flow>): seq<Flow> {
    if inner == [] then [Pass] else inner
  }

  predicate Yielding(f: Flow)
    decreases f
  {
    match f
    case Yield => true
    case WhilePending(body) => YieldsSomewhere(body)
    case While(_, _, body) => YieldsSomewhere(body)
    case Always(body) => YieldsSomewhere(body)
    case ForRange(_, body) => YieldsSomewhere(body)
    case Branch(_, body, orelse) => YieldsSomewhere(body) || YieldsSomewhere(orelse)
    case _ => false
  }

  predicate YieldsSomewhere(code: seq<Flow>)
    decreases code
  {
    code != [] && (Yielding(code[0]) || YieldsSomewhere(code[1..]))
  }

  /** A script that yields nowhere gets one bare yield, or it would not be a generator. */
  function EmitScript(body: seq<Stmt>): seq<Flow> {
    var code := EmitAll(body);
    if YieldsSomewhere(code) then code else Suite(code) + [Yield]
  }

  lemma {:induction false} EmitAllSnoc(done: seq<Stmt>, s: Stmt)
    ensures EmitAll(done + [s]) == EmitAll(done) + Emit(s)
    decreases done
  {
    var all := done + [s];
    if done == [] {
      assert all[1..] == [];
    } else {
      assert all[0] == done[0] && all[1..] == done[1..] + [s];
      EmitAllSnoc(done[1..], s);
      assert Emit(done[0]) + (EmitAll(done[1..]) + Emit(s)) == Emit(done[0]) + EmitAll(done[1..]) + Emit(s);
    }
  }

  method Stmts(body: seq<Stmt>) returns (out: seq<Flow>)
    ensures out == EmitAll(body)
    decreases body
  {
    out := [];
    for i := 0 to |body|
      invariant out == EmitAll(body[..i])
    {
      var node := body[i];
      assert body[..i + 1] == body[..i] + [node];
      EmitAllSnoc(body[..i], node);
      match node {
        case Act(a) =>
          out := out + [Do(a)];
        case Wait(e) =>
          out := out + [SetDeadline(e), WhilePending([Yield])];
        case WaitUntil(c) =>
          out := out + [While(c, false, [Yield])];
        case Forever(inner) =>
          var lines := Stmts(inner);
          out := out + [Always(Suite(lines) + [Yield])];
        case Repeat(e, inner) =>
          var lines := Stmts(inner);
          out := out + [ForRange(e, Suite(lines) + [Yield])];
        case Loop(c, until, inner) =>
          var lines := Stmts(inner);
          out := out + [While(c, !until, Suite(lines) + [Yield])];
        case If(c, inner, orelse) =>
          var lines := Stmts(inner);
          var other: seq<Flow> := [];
          if orelse != [] {
            other := Stmts(orelse);
            other := Suite(other);
          }
          out := out + [Branch(c, Suite(lines), other)];
        case Stop =>
          out := out + [Return];
      }
    }
    assert body[..|body|] == body;
  }

  /** The body of every `def`: a script that yields nowhere gets its bare yield. */
  method EmitScripts(whens: seq<seq<Stmt>>) returns (defs: seq<seq<Flow>>)
    ensures |defs| == |whens| && forall i | 0 <= i < |whens| :: defs[i] == EmitScript(whens[i])
  {
    defs := [];
    for i := 0 to |whens|
      invariant |defs| == i && forall j | 0 <= j < i :: defs[j] == EmitScript(whens[j])
    {
      var body := Stmts(whens[i]);
      if !YieldsSomewhere(body) {
        body := Suite(body) + [Yield];
      }
      defs := defs + [body];
    }
  }

  lemma {:induction false} YieldsSomewhereConcat(a: seq<Flow>, b: seq<Flow>)
    ensures YieldsSomewhere(a + b) <==> YieldsSomewhere(a) || YieldsSomewhere(b)
    decreases a
  {
    if a == [] {
      assert a + b == b;
    } else {
      assert (a + b)[1..] == a[1..] + b;
      YieldsSomewhereConcat(a[1..], b);
    }
  }

  /** The textual "does this body yield" test agrees with the labels the C form numbers. */
  lemma {:induction false} YieldsSomewhereIffLabelled(body: seq<Stmt>)
    ensures YieldsSomewhere(EmitAll(body)) <==> YieldsIn(body) > 0
    decreases body
  {
    if body != [] {
      YieldingIffLabelled(body[0]);
      YieldsSomewhereIffLabelled(body[1..]);
      YieldsSomewhereConcat(Emit(body[0]), EmitAll(body[1..]));
    }
  }

  lemma {:induction false} YieldingIffLabelled(s: Stmt)
    ensures YieldsSomewhere(Emit(s)) <==> Yields(s) > 0
    decreases s
  {
    hide EmitAll, YieldsIn, Suite;
    assert YieldsSomewhere([Yield]);
    match s
    case Wait(_) => assert YieldsSomewhere(Emit(s)[1..]);
    case Forever(body) => YieldsSomewhereConcat(Suite(EmitAll(body)), [Yield]);
    case Repeat(_, body) => YieldsSomewhereConcat(Suite(EmitAll(body)), [Yield]);
    case Loop(_, _, body) => YieldsSomewhereConcat(Suite(EmitAll(body)), [Yield]);
    case If(_, body, orelse) =>
      YieldsSomewhereIffLabelled(body);
      YieldsSomewhereIffLabelled(orelse);
      SuiteYields(EmitAll(body));
      SuiteYields(EmitAll(orelse));
      NoneYields();
    case _ =>
  }

  lemma {:induction false} SuiteYields(code: seq<Flow>)
    ensures YieldsSomewhere(Suite(code)) <==> YieldsSomewhere(code)
  {
    assert !YieldsSomewhere([Pass][1..]);
  }

  lemma {:induction false} NoneYields()
    ensures EmitAll([]) == [] && YieldsIn([]) == 0
  {
  }
}
