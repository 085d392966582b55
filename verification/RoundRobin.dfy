/** The two emitted programs as they run: statics and a loop over tasks in C, a
    list of generators in Python. */
module RoundRobin {
  import opened Script
  import opened Machine
  import opened Structured
  import opened TaskCode
  import opened Generator
  import opened Scheduler

  class CProgram {
    const t: Target
    const m: Machine
    const whens: seq<seq<Stmt>>
    const first: nat                  // counters in use before the scripts
    var tasks: seq<CTask>             // each task's state word and deadline
    var counters: map<nat, nat>
    var world: World

    ghost predicate Valid()
      reads this
    {
      t.C? && Sound(t) && |tasks| == |whens|
    }

    ghost function System(): CSystem
      reads this
    {
      CSystem(tasks, counters, world)
    }

    constructor (t: Target, m: Machine, whens: seq<seq<Stmt>>, first: nat, w: World)
      requires t.C? && Sound(t)
      ensures Valid() && System() == CStart(whens, w)
      ensures this.t == t && this.m == m && this.whens == whens && this.first == first
    {
      this.t, this.m, this.whens, this.first := t, m, whens, first;
      tasks, counters, world := seq(|whens|, i => CTask(0, 0)), map[], w;
    }

    /** One call of `bw_task<i>`. */
    method CallTask(i: nat)
      requires Valid() && i < |whens|
      modifies this`tasks, this`counters, this`world
      ensures Valid() && CPass(t, m, whens, first, i + 1, System()) == CPass(t, m, whens, first, i, old(System()))
      ensures forall j | 0 <= j < |tasks| && j != i :: tasks[j] == old(tasks[j])
    {
      hide Dispatch;
      var code := LowerAll(whens[i], 0, CounterBase(whens, first, i));
      var s := Dispatch(t, m, code, CState(tasks[i].state, tasks[i].until, counters, world));
      tasks, counters, world := tasks[i := CTask(s.state, s.until)], s.counters, s.world;
    }

    /** One turn of `for (;;)`. */
    method Pass()
      requires Valid()
      modifies this`tasks, this`counters, this`world
      ensures Valid() && System() == CPass(t, m, whens, first, 0, old(System()))
    {
      for i := 0 to |whens|
        invariant Valid()
        invariant CPass(t, m, whens, first, i, System()) == CPass(t, m, whens, first, 0, old(System()))
      {
        CallTask(i);
      }
    }

    /** From the start, `passes` turns. */
    method Run(passes: nat)
      requires Valid() && System() == CStart(whens, world)
      modifies this`tasks, this`counters, this`world
      ensures Valid() && System() == CRun(t, m, whens, first, passes, old(world))
    {
      for k := 0 to passes
        invariant Valid() && System() == CRun(t, m, whens, first, k, old(world))
      {
        Pass();
      }
    }
  }

  class PyProgram {
    const t: Target
    const m: Machine
    const budget: nat                 // generator steps a resume may take
    var tasks: seq<nat>               // `_tasks`
    var gens: seq<Gen>
    var world: World

    ghost predicate Valid()
      reads this
    {
      Sound(t)
    }

    ghost function System(): PySystem
      reads this
    {
      PySystem(tasks, gens, world)
    }

    constructor (t: Target, m: Machine, budget: nat, whens: seq<seq<Stmt>>, w: World)
      requires Sound(t)
      ensures Valid() && System() == PyStart(whens, w)
      ensures this.t == t && this.m == m && this.budget == budget
    {
      this.t, this.m, this.budget := t, m, budget;
      tasks, world := seq(|whens|, i => i), w;
      gens := seq(|whens|, i requires 0 <= i < |whens| => Alive(EmitScript(whens[i]), 0));
    }

    /** `for _t in tuple(_tasks)`: a generator that ends leaves the list, the copy stays. */
    method Pass()
      requires Valid() && InList(System())
      modifies this`tasks, this`gens, this`world
      ensures Valid() && System() == PyPass(t, m, budget, old(tasks), old(System()))
    {
      hide Resume, Remove;
      var snapshot := tasks;
      for k := 0 to |snapshot|
        invariant |gens| == |old(gens)|
        invariant PyPass(t, m, budget, snapshot[k..], System()) == PyPass(t, m, budget, snapshot, old(System()))
      {
        var i := snapshot[k];
        assert snapshot[k..][0] == i && snapshot[k..][1..] == snapshot[k + 1..];
        var (gen, w) := Resume(t, m, budget, gens[i], world);
        gens, world := gens[i := gen], w;
        if gen.Finished? {
          tasks := Remove(tasks, i);
        }
      }
    }

    method Run(passes: nat)
      requires Valid()
      modifies this`tasks, this`gens, this`world
      ensures Valid() && System() == PyRun(t, m, budget, passes, old(System()))
    {
      for k := 0 to passes
        invariant System() == PyRun(t, m, budget, k, old(System()))
      {
        if forall j | 0 <= j < |tasks| :: tasks[j] < |gens| {
          Pass();
        }
      }
    }
  }
}
