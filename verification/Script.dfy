/** The statement tree of one script, and what its leaves mean.

    Leaf statements, conditions, REPEAT counts and WAIT amounts are opaque
    identifiers: the back ends copy them and never look inside. */
module Script {

  datatype Stmt =
    | Act(act: nat)                       // any statement that cannot wait or branch
    | Wait(amount: nat)
    | WaitUntil(cond: nat)
    | Forever(body: seq<Stmt>)
    | Repeat(count: nat, body: seq<Stmt>)
    | Loop(cond: nat, until: bool, body: seq<Stmt>)   // WHILE, or REPEAT UNTIL
    | If(cond: nat, body: seq<Stmt>, orelse: seq<Stmt>)
    | Stop

  /** How many numbered yields the task lowering gives a statement. */
  function Yields(s: Stmt): nat
    decreases s
  {
    match s
    case Act(_) => 0
    case Wait(_) => 1
    case WaitUntil(_) => 1
    case Forever(body) => 1 + YieldsIn(body)
    case Repeat(_, body) => 1 + YieldsIn(body)
    case Loop(_, _, body) => 1 + YieldsIn(body)
    case If(_, body, orelse) => YieldsIn(body) + YieldsIn(orelse)
    case Stop => 0
  }

  function YieldsIn(body: seq<Stmt>): nat
    decreases body
  {
    if body == [] then 0 else Yields(body[0]) + YieldsIn(body[1..])
  }

  /** How many REPEAT counters a statement needs. */
  function Repeats(s: Stmt): nat
    decreases s
  {
    match s
    case Forever(body) => RepeatsIn(body)
    case Repeat(_, body) => 1 + RepeatsIn(body)
    case Loop(_, _, body) => RepeatsIn(body)
    case If(_, body, orelse) => RepeatsIn(body) + RepeatsIn(orelse)
    case _ => 0
  }

  function RepeatsIn(body: seq<Stmt>): nat
    decreases body
  {
    if body == [] then 0 else Repeats(body[0]) + RepeatsIn(body[1..])
  }
}

/** What generated code does to the world, with expression evaluation left open. */
module Machine {

  type Globals(!new)   // the variables every script shares
  type Env(!new)       // inputs and the clock: moved on by every reading

  /** The meaning of the opaque leaves. Every evaluation may consume readings. */
  datatype Machine = Machine(
    act: (nat, Globals, Env) -> (Globals, Env),
    test: (nat, Globals, Env) -> (bool, Env),
    number: (nat, Globals, Env) -> (int, Env),
    clock: Env -> (int, Env))

  /** A leaf statement carried out, or a wait of so many milliseconds begun. */
  datatype Event = Did(act: nat) | Waited(amount: nat, ms: int)

  /** `log` is the effect trace, in order. */
  datatype World = World(globals: Globals, env: Env, log: seq<Event>)

  /** A C target's integers: `half` is the positive half of the word a time is
      kept in (32768 or 2147483648), `range` the number of values of an
      `unsigned int`, which holds a state word or a REPEAT counter (65536 or 4294967296). */
  datatype Sizes = Sizes(half: nat, range: nat)

  /** Python counts without bound. The micro:bit's clock does not wrap in any run;
      the Pico's ticks do, at twice `half`. */
  datatype Target = MicroBit | Pico(half: nat) | C(size: Sizes)

  predicate Sized(size: Sizes) {
    size.half > 0 && size.range >= 0x1_0000
  }

  predicate Sound(t: Target) {
    match t
    case MicroBit => true
    case Pico(half) => half > 0
    case C(size) => Sized(size)
  }

  /** `i` converted to `unsigned int`. */
  function Unsigned(size: Sizes, i: int): nat
    requires size.range > 0
  {
    if 0 <= i < size.range then i else i % size.range
  }

  /** How many times a REPEAT whose count reads `i` goes round: in C what an
      `unsigned int` makes of it. */
  function Latch(t: Target, i: int): nat
    requires Sound(t)
  {
    match t
    case C(size) => Unsigned(size, i)
    case _ => if i < 0 then 0 else i
  }

  /** A counter one less: below 0 a C counter comes to its largest value. */
  function Less(t: Target, i: nat): nat
    requires Sound(t)
  {
    if i > 0 then i - 1 else if t.C? then t.size.range - 1 else 0
  }

  /** A time as the target keeps it. */
  function Word(t: Target, time: int): int
    requires Sound(t)
  {
    match t
    case MicroBit => time
    case Pico(half) => time % (2 * half)
    case C(size) => time % (2 * size.half)
  }

  function Due(t: Target, now: int, ms: int): int
    requires Sound(t)
  {
    Word(t, now + ms)
  }

  /** The deadline test: plain comparison, a positive `ticks_diff`, or the sign
      of the wrapped difference. */
  predicate Pending(t: Target, now: int, due: int)
    requires Sound(t)
  {
    match t
    case MicroBit => now < due
    case Pico(half) => 0 < (due - now) % (2 * half) < half
    case C(size) => (now - due) % (2 * size.half) >= size.half
  }

  function Perform(m: Machine, a: nat, w: World): World {
    var (g, e) := m.act(a, w.globals, w.env);
    World(g, e, w.log + [Did(a)])
  }

  function Test(m: Machine, c: nat, w: World): (bool, World) {
    var (b, e) := m.test(c, w.globals, w.env);
    (b, w.(env := e))
  }

  function Number(m: Machine, n: nat, w: World): (int, World) {
    var (i, e) := m.number(n, w.globals, w.env);
    (i, w.(env := e))
  }

  function Clock(m: Machine, w: World): (int, World) {
    var (i, e) := m.clock(w.env);
    (i, w.(env := e))
  }

  /** A WAIT begins. */
  function Begins(m: Machine, amount: nat, w: World): (int, World) {
    var (ms, w1) := Number(m, amount, w);
    (ms, w1.(log := w1.log + [Waited(amount, ms)]))
  }

  /** `deadline = now() + ms` */
  function Deadline(t: Target, m: Machine, amount: nat, w: World): (int, World)
    requires Sound(t)
  {
    var (now, w1) := Clock(m, w);
    var (ms, w2) := Begins(m, amount, w1);
    (Due(t, now, ms), w2)
  }

  function Early(t: Target, m: Machine, due: int, w: World): (bool, World)
    requires Sound(t)
  {
    var (now, w1) := Clock(m, w);
    (Pending(t, now, due), w1)
  }
}
