/**
 * The older task engine over package globals (plugins/task.go): tasks by
 * name with their dependencies and runner, and `RunTask`, which walks the
 * dependencies depth first with a running stack that is really popped on
 * every exit.
 */
module PluginTask {
  import opened Errors
  import Task
  import Seqs

  /** The runner `func(ctx, args ...string) error`, given by the error it returns for the arguments. */
  type Runner = seq<string> -> Status

  /** One argument of `Task` after the name; `OtherArg` is a value of any other type. */
  datatype Arg =
    | DependsArg(names: seq<string>)
    | StringsArg(names: seq<string>)
    | RunnerArg(run: Runner)
    | OtherArg

  /** A registered task. */
  datatype PTask = PTask(name: string, depends: seq<string>, runner: Option<Runner>)

  const EmptyNameMessage := "task name is empty"
  const NoArgsMessage := "task must have dependence or run function"

  function ExistsMessage(name: string): string {
    "task name exist: " + name
  }

  function NoTaskMessage(name: string): string {
    "no task : " + name
  }

  /** `%v` of a string slice: the elements between brackets, separated by spaces. */
  function Show(s: seq<string>): string {
    "[" + Joined(s) + "]"
  }

  function Joined(s: seq<string>): string {
    if s == [] then "" else if |s| == 1 then s[0] else s[0] + " " + Joined(s[1..])
  }

  function RecursionMessage(name: string, running: seq<string>): string {
    "Already run task: " + name + ", there is a recursion call. Call sequence:" + Show(running)
  }

  /** `Depend(tasks...)`: the names as a `Depends` argument. */
  function Depend(names: seq<string>): Arg {
    DependsArg(names)
  }

  /** The task the argument loop of `Task` builds: a later dependency list or runner replaces an earlier one. */
  function Parsed(name: string, args: seq<Arg>): PTask {
    if args == [] then PTask(name, [], None)
    else
      var t := Parsed(name, args[..|args| - 1]);
      match args[|args| - 1]
      case DependsArg(names) => t.(depends := names)
      case StringsArg(names) => t.(depends := names)
      case RunnerArg(run) => t.(runner := Some(run))
      case OtherArg => t
  }

  /**
   * The dependencies are those of the last `Depends` or `[]string`
   * argument, and the runner that of the last runner argument; arguments
   * of other types change nothing.
   */
  lemma {:induction false} ParsedLastWins(name: string, args: seq<Arg>, i: int)
    ensures Parsed(name, args).name == name
    ensures 0 <= i < |args| && (args[i].DependsArg? || args[i].StringsArg?) &&
            (forall j :: i < j < |args| ==> args[j].RunnerArg? || args[j].OtherArg?) ==>
            Parsed(name, args).depends == args[i].names
    ensures 0 <= i < |args| && args[i].RunnerArg? && (forall j :: i < j < |args| ==> !args[j].RunnerArg?) ==>
            Parsed(name, args).runner == Some(args[i].run)
    ensures (forall j :: 0 <= j < |args| ==> !args[j].RunnerArg?) ==> Parsed(name, args).runner == None
    ensures (forall j :: 0 <= j < |args| ==> args[j].RunnerArg? || args[j].OtherArg?) ==> Parsed(name, args).depends == []
    decreases |args|
  {
    if args != [] {
      var init := args[..|args| - 1];
      ParsedLastWins(name, init, i);
      forall j | 0 <= j < |init| ensures init[j] == args[j] { }
    }
  }

  /** `Depend("a", "b", "c")` makes exactly those dependencies, in that order. */
  lemma DependKeepsOrder(name: string, names: seq<string>, run: Runner)
    ensures Parsed(name, [Depend(names), RunnerArg(run)]) == PTask(name, names, Some(run))
  {
    assert [Depend(names), RunnerArg(run)][..1] == [Depend(names)];
    assert [Depend(names)][..0] == [];
    assert Parsed(name, []) == PTask(name, [], None);
    assert Parsed(name, [Depend(names)]) == PTask(name, names, None);
  }

  /** The result of a run: how it ended, and the tasks whose runner ran, in order. */
  datatype RunResult = RunResult(out: Outcome<Status>, ran: seq<string>)

  /** The run failed: it panicked or returned an error. */
  predicate Aborted(r: RunResult) {
    r.out.Panic? || r.out.value.Error?
  }

  /** `prefix` ran before `r`. */
  function After(prefix: seq<string>, r: RunResult): RunResult {
    RunResult(r.out, prefix + r.ran)
  }

  lemma AfterAfter(a: seq<string>, b: seq<string>, r: RunResult)
    ensures After(a, After(b, r)) == After(a + b, r)
  {
    assert a + (b + r.ran) == (a + b) + r.ran;
  }

  function Unfinished(tasks: map<string, PTask>, running: seq<string>): nat {
    |tasks.Keys - Task.SetOf(running)|
  }

  lemma UnfinishedShrinks(tasks: map<string, PTask>, running: seq<string>, name: string)
    requires name in tasks && name !in running
    ensures Unfinished(tasks, running + [name]) < Unfinished(tasks, running)
  {
    assert Task.SetOf(running + [name]) == Task.SetOf(running) + {name};
    assert tasks.Keys - Task.SetOf(running + [name]) == (tasks.Keys - Task.SetOf(running)) - {name};
    Task.StrictSubsetSmaller(tasks.Keys - Task.SetOf(running + [name]), tasks.Keys - Task.SetOf(running), name);
  }

  /**
   * `RunTask(name, args...)` with `running` on the stack: the push fails
   * on a name already running; an empty or unknown name panics; otherwise
   * the dependencies run left to right with the same arguments, stopping
   * at the first failure, and then the runner.
   */
  function Run(tasks: map<string, PTask>, running: seq<string>, name: string, args: seq<string>): RunResult
    decreases Unfinished(tasks, running), 0, 0
  {
    if name in running then RunResult(Return(Error(RecursionMessage(name, running))), [])
    else if name == "" then RunResult(Panic(EmptyNameMessage), [])
    else if name !in tasks then RunResult(Panic(NoTaskMessage(name)), [])
    else
      UnfinishedShrinks(tasks, running, name);
      Pushed(tasks, running + [name], name, args)
  }

  /** The run of a registered task `name` once it is on top of `stack`. */
  function Pushed(tasks: map<string, PTask>, stack: seq<string>, name: string, args: seq<string>): RunResult
    requires name in tasks
    decreases Unfinished(tasks, stack), 2, 0
  {
    var t := tasks[name];
    var d := RunDeps(tasks, stack, t.depends, args);
    if Aborted(d) then d
    else if t.runner.Some? then RunResult(Return(t.runner.value(args)), d.ran + [name])
    else RunResult(Return(Nil), d.ran)
  }

  function RunDeps(tasks: map<string, PTask>, running: seq<string>, deps: seq<string>, args: seq<string>): RunResult
    decreases Unfinished(tasks, running), 1, |deps|
  {
    if deps == [] then RunResult(Return(Nil), [])
    else
      var r := Run(tasks, running, deps[0], args);
      if Aborted(r) then r else After(r.ran, RunDeps(tasks, running, deps[1..], args))
  }

  /** The three ways a run ends before any dependency runs. */
  lemma RunEntry(tasks: map<string, PTask>, running: seq<string>, name: string, args: seq<string>)
    ensures name in running ==> Run(tasks, running, name, args) == RunResult(Return(Error(RecursionMessage(name, running))), [])
    ensures name !in running && name == "" ==> Run(tasks, running, name, args) == RunResult(Panic(EmptyNameMessage), [])
    ensures name !in running && name != "" && name !in tasks ==>
            Run(tasks, running, name, args) == RunResult(Panic(NoTaskMessage(name)), [])
  {
  }

  /** Every task in `ran` is a registered task with a runner, none of them on the stack at the start. */
  ghost predicate RanTasks(tasks: map<string, PTask>, running: seq<string>, ran: seq<string>) {
    forall i :: 0 <= i < |ran| ==> ran[i] in tasks && tasks[ran[i]].runner.Some? && ran[i] !in running
  }

  /**
   * Only runners of registered tasks run, never that of a task already
   * running; a run that did not fail ran the task's own runner last, when
   * it has one; and a task's runner runs only once its dependencies all
   * succeeded.
   */
  lemma {:induction false} RunTrace(tasks: map<string, PTask>, running: seq<string>, name: string, args: seq<string>)
    ensures var r := Run(tasks, running, name, args);
      && RanTasks(tasks, running, r.ran)
      && (!Aborted(r) && name in tasks && tasks[name].runner.Some? ==> r.ran != [] && r.ran[|r.ran| - 1] == name)
      && (name in r.ran ==> !Aborted(RunDeps(tasks, running + [name], tasks[name].depends, args)))
    decreases Unfinished(tasks, running), 0, 0
  {
    if name !in running && name != "" && name in tasks {
      UnfinishedShrinks(tasks, running, name);
      var t := tasks[name];
      RunDepsTrace(tasks, running + [name], t.depends, args);
      var d := RunDeps(tasks, running + [name], t.depends, args);
      var r := Run(tasks, running, name, args);
      assert r == Pushed(tasks, running + [name], name, args);
      if Aborted(d) {
        assert r == d;
      } else if t.runner.Some? {
        assert r.ran == d.ran + [name];
      }
    }
  }

  lemma {:induction false} RunDepsTrace(tasks: map<string, PTask>, running: seq<string>, deps: seq<string>, args: seq<string>)
    ensures RanTasks(tasks, running, RunDeps(tasks, running, deps, args).ran)
    decreases Unfinished(tasks, running), 1, |deps|
  {
    if deps != [] {
      RunTrace(tasks, running, deps[0], args);
      var r := Run(tasks, running, deps[0], args);
      if !Aborted(r) {
        RunDepsTrace(tasks, running, deps[1..], args);
        var rest := RunDeps(tasks, running, deps[1..], args);
        assert RunDeps(tasks, running, deps, args).ran == r.ran + rest.ran;
        forall i | 0 <= i < |r.ran + rest.ran|
          ensures var x := (r.ran + rest.ran)[i]; x in tasks && tasks[x].runner.Some? && x !in running
        {
          if i >= |r.ran| {
            assert (r.ran + rest.ran)[i] == rest.ran[i - |r.ran|];
          }
        }
      }
    }
  }

  /** The dependencies run left to right: a failing one ends the list, after the earlier ones succeeded. */
  lemma RunDepsStep(tasks: map<string, PTask>, running: seq<string>, deps: seq<string>, args: seq<string>, i: nat)
    requires i < |deps|
    ensures var r := Run(tasks, running, deps[i], args);
      Aborted(r) ==> RunDeps(tasks, running, deps[i..], args) == r
    ensures var r := Run(tasks, running, deps[i], args);
      !Aborted(r) ==> RunDeps(tasks, running, deps[i..], args) == After(r.ran, RunDeps(tasks, running, deps[i + 1..], args))
  {
    assert deps[i..][0] == deps[i];
    assert deps[i..][1..] == deps[i + 1..];
  }

  /** A failing dependency list ends the run of the task with its result. */
  lemma PushedFails(tasks: map<string, PTask>, stack: seq<string>, name: string, args: seq<string>)
    requires name in tasks && Aborted(RunDeps(tasks, stack, tasks[name].depends, args))
    ensures Pushed(tasks, stack, name, args) == RunDeps(tasks, stack, tasks[name].depends, args)
  {
  }

  /** After the dependencies all succeeded, the task's runner runs, if it has one. */
  lemma PushedRunner(tasks: map<string, PTask>, stack: seq<string>, name: string, args: seq<string>, acc: seq<string>)
    requires name in tasks && RunDeps(tasks, stack, tasks[name].depends, args) == RunResult(Return(Nil), acc)
    ensures tasks[name].runner.Some? ==> Pushed(tasks, stack, name, args) == RunResult(Return(tasks[name].runner.value(args)), acc + [name])
    ensures tasks[name].runner.None? ==> Pushed(tasks, stack, name, args) == RunResult(Return(Nil), acc)
  {
  }

  /**
   * The cycle of the package's test: A depends on B and B on A. Running B
   * reaches B again through A and returns the recursion error, with B and
   * A on the stack; no runner runs.
   */
  lemma CycleIsReported(runA: Runner, runB: Runner, args: seq<string>)
    ensures var tasks := map["A" := PTask("A", ["B"], Some(runA)), "B" := PTask("B", ["A"], Some(runB))];
      Run(tasks, [], "B", args) == RunResult(Return(Error(RecursionMessage("B", ["B", "A"]))), [])
  {
    var tasks := map["A" := PTask("A", ["B"], Some(runA)), "B" := PTask("B", ["A"], Some(runB))];
    assert [] + ["B"] == ["B"];
    assert ["B"] + ["A"] == ["B", "A"];
    assert Run(tasks, ["B", "A"], "B", args) == RunResult(Return(Error(RecursionMessage("B", ["B", "A"]))), []);
    assert RunDeps(tasks, ["B", "A"], ["B"], args) == Run(tasks, ["B", "A"], "B", args);
    assert Run(tasks, ["B"], "A", args) == Run(tasks, ["B", "A"], "B", args);
    assert RunDeps(tasks, ["B"], ["A"], args) == Run(tasks, ["B"], "A", args);
  }

  const Diamond := map[
    "A" := PTask("A", ["B", "C"], Some(NilRunner)),
    "B" := PTask("B", ["D"], Some(NilRunner)),
    "C" := PTask("C", ["D"], Some(NilRunner)),
    "D" := PTask("D", [], Some(NilRunner))]

  function NilRunner(args: seq<string>): Status {
    Nil
  }

  lemma DiamondLeaf(running: seq<string>, args: seq<string>)
    requires running == ["A", "B"] || running == ["A", "C"]
    ensures Run(Diamond, running, "D", args) == RunResult(Return(Nil), ["D"])
    ensures Run(Diamond, running[..1], running[1], args) == RunResult(Return(Nil), ["D", running[1]])
  {
    assert "D" !in running;
    assert RunDeps(Diamond, running + ["D"], [], args) == RunResult(Return(Nil), []);
    assert Pushed(Diamond, running + ["D"], "D", args) == RunResult(Return(Nil), ["D"]);
    var rd := Run(Diamond, running, "D", args);
    assert rd == RunResult(Return(Nil), ["D"]);
    assert ["D"][1..] == [];
    assert RunDeps(Diamond, running, ["D"], args) == After(["D"], RunDeps(Diamond, running, [], args));
    assert running[..1] + [running[1]] == running;
    assert Pushed(Diamond, running, running[1], args) == RunResult(Return(Nil), ["D", running[1]]);
  }

  /**
   * Because the stack is popped after each run, a task shared by two
   * dependencies (a diamond) is not a recursion: it simply runs twice.
   */
  lemma DiamondRunsSharedTaskTwice(args: seq<string>)
    ensures Run(Diamond, [], "A", args) == RunResult(Return(Nil), ["D", "B", "D", "C", "A"])
  {
    DiamondLeaf(["A", "B"], args);
    DiamondLeaf(["A", "C"], args);
    assert [] + ["A"] == ["A"];
    assert ["A", "B"][..1] == ["A"] && ["A", "C"][..1] == ["A"];
    assert ["C"][1..] == [] && ["B", "C"][1..] == ["C"];
    var rc := RunDeps(Diamond, ["A"], ["C"], args);
    assert rc == After(["D", "C"], RunDeps(Diamond, ["A"], [], args));
    assert RunDeps(Diamond, ["A"], ["B", "C"], args) == After(["D", "B"], rc);
  }

  /** The package globals `_tasks` and `_runningTask`. */
  class Engine {
    var tasks: map<string, PTask>
    var running: seq<string>
    /** The tasks whose runner was called, in order. */
    ghost var ran: seq<string>

    constructor ()
      ensures tasks == map[] && running == [] && ran == []
    {
      tasks := map[];
      running := [];
      ran := [];
    }

    /**
     * `Task(name, args...)`: panics on an empty name, then on a name
     * already registered, then on no arguments, leaving the tasks as they
     * were; otherwise registers the task its arguments describe.
     */
    method Task(name: string, args: seq<Arg>) returns (c: Completion)
      modifies this`tasks
      ensures name == "" ==> c == Panicked(EmptyNameMessage)
      ensures name != "" && name in old(tasks) ==> c == Panicked(ExistsMessage(name))
      ensures name != "" && name !in old(tasks) && args == [] ==> c == Panicked(NoArgsMessage)
      ensures c.Panicked? ==> tasks == old(tasks)
      ensures c.Completed? <==> name != "" && name !in old(tasks) && args != []
      ensures c.Completed? ==> tasks == old(tasks)[name := Parsed(name, args)]
    {
      if |name| > 0 {
        if name in tasks {
          return Panicked(ExistsMessage(name));
        }
        if |args| == 0 {
          return Panicked(NoArgsMessage);
        }
        var t := PTask(name, [], None);
        var i := 0;
        while i < |args|
          invariant 0 <= i <= |args|
          invariant t == Parsed(name, args[..i])
        {
          assert args[..i + 1][..i] == args[..i];
          match args[i] {
            case DependsArg(names) => t := t.(depends := names);
            case StringsArg(names) => t := t.(depends := names);
            case RunnerArg(run) => t := t.(runner := Some(run));
            case OtherArg =>
          }
          i := i + 1;
        }
        assert args[..|args|] == args;
        tasks := tasks[name := t];
        return Completed;
      } else {
        return Panicked(EmptyNameMessage);
      }
    }

    /** `pushTask`: fails iff the name is already running, else appends it. */
    method PushTask(name: string) returns (err: Status)
      modifies this`running
      ensures name in old(running) ==> err == Error(RecursionMessage(name, old(running))) && running == old(running)
      ensures name !in old(running) ==> err == Nil && running == old(running) + [name]
    {
      if |running| == 0 {
        running := running + [name];
      } else {
        var i := 0;
        while i < |running|
          invariant 0 <= i <= |running|
          invariant name !in running[..i]
        {
          if running[i] == name {
            return Error(RecursionMessage(running[i], running));
          }
          i := i + 1;
        }
        assert running[..i] == running;
        running := running + [name];
      }
      return Nil;
    }

    /** `popTask`: drops the last running name, if any. */
    method PopTask()
      modifies this`running
      ensures old(running) != [] ==> running == old(running)[..|old(running)| - 1]
      ensures old(running) == [] ==> running == []
    {
      if |running| > 0 {
        running := running[..|running| - 1];
      }
    }

    /**
     * `RunTask(name, args...)`: the run `Run` describes, with the runners
     * it calls recorded in `ran`; the deferred pop leaves the running stack
     * as it was on every exit, panics included.
     */
    method RunTask(name: string, args: seq<string>) returns (o: Outcome<Status>)
      modifies this`running, this`ran
      ensures running == old(running)
      ensures o == Run(tasks, old(running), name, args).out
      ensures ran == old(ran) + Run(tasks, old(running), name, args).ran
      decreases Unfinished(tasks, running), 0
    {
      var err := PushTask(name);
      if err.Error? {
        return Return(err);
      }
      if |name| > 0 {
        if name in tasks {
          UnfinishedShrinks(tasks, old(running), name);
          o := RunPushed(name, args);
        } else {
          o := Panic(NoTaskMessage(name));
        }
      } else {
        o := Panic(EmptyNameMessage);
      }
      PopTask();
      assert (old(running) + [name])[..|old(running)|] == old(running);
    }

    /** The body of `RunTask` after a successful push of `name`, up to the deferred pop. */
    method RunPushed(name: string, args: seq<string>) returns (o: Outcome<Status>)
      requires name in tasks
      modifies this`running, this`ran
      ensures running == old(running)
      ensures o == Pushed(tasks, old(running), name, args).out
      ensures ran == old(ran) + Pushed(tasks, old(running), name, args).ran
      decreases Unfinished(tasks, running), 2
    {
      var t := tasks[name];
      ghost var d := RunDeps(tasks, running, t.depends, args);
      o := RunDependencies(t.depends, args);
      if o.Panic? || o.value.Error? {
        PushedFails(tasks, running, name, args);
        return;
      }
      PushedRunner(tasks, running, name, args, d.ran);
      if t.runner.Some? {
        var e := t.runner.value(args);
        ran := ran + [name];
        return Return(e);
      }
      return Return(Nil);
    }

    /** The loop over the dependencies: each runs in turn until one fails. */
    method RunDependencies(deps: seq<string>, args: seq<string>) returns (o: Outcome<Status>)
      modifies this`running, this`ran
      ensures running == old(running)
      ensures o == RunDeps(tasks, old(running), deps, args).out
      ensures ran == old(ran) + RunDeps(tasks, old(running), deps, args).ran
      decreases Unfinished(tasks, running), 1
    {
      ghost var ts, stack := tasks, running;
      ghost var acc: seq<string> := [];
      var i := 0;
      while i < |deps|
        invariant 0 <= i <= |deps|
        invariant tasks == ts && running == stack
        invariant ran == old(ran) + acc
        invariant RunDeps(ts, stack, deps, args) == After(acc, RunDeps(ts, stack, deps[i..], args))
      {
        RunDepsStep(ts, stack, deps, args, i);
        ghost var step := Run(ts, stack, deps[i], args);
        o := RunTask(deps[i], args);
        if o.Panic? || o.value.Error? {
          Seqs.Assoc(old(ran), acc, step.ran);
          return;
        }
        AfterAfter(acc, step.ran, RunDeps(ts, stack, deps[i + 1..], args));
        acc := acc + step.ran;
        i := i + 1;
      }
      assert deps[i..] == [];
      o := Return(Nil);
    }
  }
}
