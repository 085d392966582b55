/** What a script's statements mean, said of the statement tree alone: the
    reference that every compiled form is held against. */
module Meaning {
  import opened Script
  import opened Machine

  /** What a script still has to do. */
  datatype Work =
    | One(s: Stmt)
    | Till(due: int)                        // a WAIT under way
    | Rounds(left: nat, body: seq<Stmt>)    // a REPEAT under way
    | Breath                                // the end of a round: others get their turn

  function Each(body: seq<Stmt>): seq<Work> {
    if body == [] then [] else [One(body[0])] + Each(body[1..])
  }

  /** `pauses` says that the others get their turn now. */
  datatype Moment = Moment(todo: seq<Work>, world: World, pauses: bool)

  /** The next thing done. */
  function Proceed(t: Target, m: Machine, todo: seq<Work>, w: World): Moment
    requires Sound(t) && todo != []
  {
    var rest := todo[1..];
    match todo[0]
    case One(Act(a)) =>
      var (g, e) := m.act(a, w.globals, w.env);
      Moment(rest, World(g, e, w.log + [Did(a)]), false)
    case One(Wait(n)) =>
      var (now, e) := m.clock(w.env);
      var (ms, e1) := m.number(n, w.globals, e);
      Moment([Till(Word(t, now + ms))] + rest, World(w.globals, e1, w.log + [Waited(n, ms)]), false)
    case Till(due) =>
      var (now, e) := m.clock(w.env);
      var early := Pending(t, now, due);
      Moment(if early then todo else rest, w.(env := e), early)
    case One(WaitUntil(c)) =>
      var (b, e) := m.test(c, w.globals, w.env);
      Moment(if b then rest else todo, w.(env := e), !b)
    case One(Forever(body)) => Moment(Each(body) + ([Breath] + todo), w, false)
    case One(Repeat(n, body)) =>
      var (i, e) := m.number(n, w.globals, w.env);
      Moment([Rounds(Latch(t, i), body)] + rest, w.(env := e), false)
    case Rounds(left, body) =>
      Moment(if left > 0 then Each(body) + ([Breath, Rounds(left - 1, body)] + rest) else rest, w, false)
    case One(Loop(c, until, body)) =>
      var (b, e) := m.test(c, w.globals, w.env);
      Moment(if b != until then Each(body) + ([Breath] + todo) else rest, w.(env := e), false)
    case One(If(c, body, orelse)) =>
      var (b, e) := m.test(c, w.globals, w.env);
      Moment(Each(if b then body else orelse) + rest, w.(env := e), false)
    case One(Stop) => Moment([], w, false)
    case Breath => Moment(rest, w, true)
  }

  /** The words of a target that neither wraps its clock nor bounds its counts. */
  lemma {:induction false} InPlainNumbers(now: int, due: int, i: int)
    ensures Word(MicroBit, due) == due
    ensures Pending(MicroBit, now, due) <==> now < due
    ensures Latch(MicroBit, i) == if i < 0 then 0 else i
  {
  }

  /** Until the script pauses or is over; `true` if it did within `fuel` moments. */
  function Turn(t: Target, m: Machine, fuel: nat, todo: seq<Work>, w: World): (seq<Work>, World, bool)
    requires Sound(t)
  {
    if todo == [] then (todo, w, true)
    else if fuel == 0 then (todo, w, false)
    else
      var d := Proceed(t, m, todo, w);
      if d.pauses then (d.todo, d.world, true) else Turn(t, m, fuel - 1, d.todo, d.world)
  }

  /** All scripts at once; `whole` says that no turn ran out of fuel. */
  datatype Scene = Scene(places: seq<seq<Work>>, world: World, whole: bool)

  /** From script `i` on, one turn each. */
  function ScenePass(t: Target, m: Machine, fuel: nat, i: nat, c: Scene): (r: Scene)
    requires Sound(t) && i <= |c.places|
    ensures |r.places| == |c.places|
    decreases |c.places| - i
  {
    if i == |c.places| then c
    else
      var (todo, w, whole) := Turn(t, m, fuel, c.places[i], c.world);
      ScenePass(t, m, fuel, i + 1, Scene(c.places[i := todo], w, c.whole && whole))
  }

  function SceneRun(t: Target, m: Machine, fuel: nat, whens: seq<seq<Stmt>>, passes: nat, w: World): (r: Scene)
    requires Sound(t)
    ensures |r.places| == |whens|
  {
    if passes == 0 then Scene(seq(|whens|, i requires 0 <= i < |whens| => Each(whens[i])), w, true)
    else ScenePass(t, m, fuel, 0, SceneRun(t, m, fuel, whens, passes - 1, w))
  }

  lemma {:induction false} TurnMore(t: Target, m: Machine, fuel: nat, todo: seq<Work>, w: World)
    requires Sound(t) && Turn(t, m, fuel, todo, w).2
    ensures Turn(t, m, fuel + 1, todo, w) == Turn(t, m, fuel, todo, w)
    decreases fuel
  {
    hide Proceed;
    if todo != [] && fuel > 0 {
      var d := Proceed(t, m, todo, w);
      if !d.pauses {
        TurnMore(t, m, fuel - 1, d.todo, d.world);
      }
    }
  }

  // ---- one script on its own ----------------------------------------------

  /** So many moments of a script that has no others to wait for. */
  function Moments(t: Target, m: Machine, n: nat, todo: seq<Work>, w: World): (seq<Work>, World)
    requires Sound(t)
  {
    if n == 0 || todo == [] then (todo, w)
    else
      var d := Proceed(t, m, todo, w);
      Moments(t, m, n - 1, d.todo, d.world)
  }

  lemma {:induction false} MomentsAdd(t: Target, m: Machine, a: nat, b: nat, todo: seq<Work>, w: World)
    requires Sound(t)
    ensures var (todo1, w1) := Moments(t, m, a, todo, w);
            Moments(t, m, a + b, todo, w) == Moments(t, m, b, todo1, w1)
    decreases a
  {
    hide Proceed;
    if a > 0 && todo != [] {
      var d := Proceed(t, m, todo, w);
      MomentsAdd(t, m, a - 1, b, d.todo, d.world);
    }
  }

  lemma {:induction false} OneMoment(t: Target, m: Machine, todo: seq<Work>, w: World)
    requires Sound(t) && todo != []
    ensures var d := Proceed(t, m, todo, w); Moments(t, m, 1, todo, w) == (d.todo, d.world)
  {
    hide Proceed;
    var d := Proceed(t, m, todo, w);
    assert Moments(t, m, 0, d.todo, d.world) == (d.todo, d.world);
  }

  function Acts(acts: seq<nat>): seq<Stmt> {
    if acts == [] then [] else [Act(acts[0])] + Acts(acts[1..])
  }

  function DidAll(acts: seq<nat>): seq<Event> {
    if acts == [] then [] else [Did(acts[0])] + DidAll(acts[1..])
  }

  function Times(n: nat, events: seq<Event>): seq<Event> {
    if n == 0 then [] else events + Times(n - 1, events)
  }

  lemma {:induction false} NoMoments(t: Target, m: Machine, todo: seq<Work>, w: World)
    requires Sound(t)
    ensures Moments(t, m, 0, todo, w) == (todo, w)
  {
  }

  lemma {:induction false} ActsDone(t: Target, m: Machine, acts: seq<nat>, rest: seq<Work>, w: World)
      returns (k: nat, w1: World)
    requires Sound(t)
    ensures Moments(t, m, k, Each(Acts(acts)) + rest, w) == (rest, w1) && w1.log == w.log + DidAll(acts)
    decreases acts
  {
    hide Moments;
    NoMoments(t, m, rest, w);
    var todo := Each(Acts(acts)) + rest;
    k, w1 := 0, w;
    if acts == [] {
      assert todo == rest && w.log + [] == w.log;
    } else {
      assert Acts(acts)[1..] == Acts(acts[1..]);
      assert todo[0] == One(Act(acts[0])) && todo[1..] == Each(Acts(acts[1..])) + rest;
      var d := Proceed(t, m, todo, w);
      OneMoment(t, m, todo, w);
      k, w1 := ActsDone(t, m, acts[1..], rest, d.world);
      MomentsAdd(t, m, 1, k, todo, w);
      k := 1 + k;
      assert w.log + [Did(acts[0])] + DidAll(acts[1..]) == w.log + DidAll(acts);
    }
  }

  /** One round of a REPEAT, up to the next. */
  lemma {:induction false} RoundDone(t: Target, m: Machine, left: nat, acts: seq<nat>, rest: seq<Work>, w: World)
      returns (k: nat, w1: World)
    requires Sound(t) && left > 0
    ensures Moments(t, m, k, [Rounds(left, Acts(acts))] + rest, w) == ([Rounds(left - 1, Acts(acts))] + rest, w1)
    ensures w1.log == w.log + DidAll(acts)
  {
    hide Acts, DidAll, Each, Moments;
    var todo := [Rounds(left, Acts(acts))] + rest;
    var loop := [Rounds(left - 1, Acts(acts))] + rest;
    assert todo[1..] == rest;
    OneMoment(t, m, todo, w);
    assert [Breath, Rounds(left - 1, Acts(acts))] + rest == [Breath] + loop;
    var inner, w0 := ActsDone(t, m, acts, [Breath] + loop, w);
    MomentsAdd(t, m, 1, inner, todo, w);
    assert ([Breath] + loop)[1..] == loop;
    OneMoment(t, m, [Breath] + loop, w0);
    MomentsAdd(t, m, 1 + inner, 1, todo, w);
    k, w1 := 2 + inner, w0;
  }

  lemma {:induction false} RoundsDone(t: Target, m: Machine, left: nat, acts: seq<nat>, rest: seq<Work>, w: World)
      returns (k: nat, w1: World)
    requires Sound(t)
    ensures Moments(t, m, k, [Rounds(left, Acts(acts))] + rest, w) == (rest, w1)
    ensures w1.log == w.log + Times(left, DidAll(acts))
    decreases left
  {
    hide Acts, DidAll, Each, Moments;
    var todo := [Rounds(left, Acts(acts))] + rest;
    if left == 0 {
      assert todo[1..] == rest && w.log + [] == w.log;
      OneMoment(t, m, todo, w);
      k, w1 := 1, w;
    } else {
      var round, w0 := RoundDone(t, m, left, acts, rest, w);
      k, w1 := RoundsDone(t, m, left - 1, acts, rest, w0);
      MomentsAdd(t, m, round, k, todo, w);
      k := round + k;
      assert w.log + DidAll(acts) + Times(left - 1, DidAll(acts)) == w.log + Times(left, DidAll(acts));
    }
  }

  /** A REPEAT of plain statements does them as often as its count says, the
      count read once, and then it is done with. */
  lemma {:induction false} RepeatGoesRound(m: Machine, n: nat, acts: seq<nat>, w: World) returns (k: nat, w1: World)
    ensures Moments(MicroBit, m, k, [One(Repeat(n, Acts(acts)))], w) == ([], w1)
    ensures var i := m.number(n, w.globals, w.env).0;
            w1.log == w.log + Times(if i < 0 then 0 else i, DidAll(acts))
  {
    hide Acts, DidAll, Each;
    var todo := [One(Repeat(n, Acts(acts)))];
    var d := Proceed(MicroBit, m, todo, w);
    OneMoment(MicroBit, m, todo, w);
    assert todo[1..] == [];
    assert d.todo == [d.todo[0]] + [];
    k, w1 := RoundsDone(MicroBit, m, d.todo[0].left, acts, [], d.world);
    MomentsAdd(MicroBit, m, 1, k, todo, w);
    k := 1 + k;
  }
}
