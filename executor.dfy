/**
 * The `Executor` interface and the function executor that wraps a bare
 * `func() error` (context/executor.go).
 */
module Executor {
  import opened Errors
  import opened Config

  /** A `func() error` from user code; calling it yields `result`. */
  datatype Runner = Runner(result: Status)

  /** `*defaultExecutor`: `NilExecutor` is the nil receiver; `runner` is `None` for a nil func. */
  datatype DefaultExecutor = NilExecutor | DefaultExecutor(runner: Option<Runner>)

  const NilMessage := "Current object or runner is nil"

  predicate HasRunner(d: DefaultExecutor) {
    d.DefaultExecutor? && d.runner.Some?
  }

  /** `Execute` calls the runner when there is one and otherwise does nothing. */
  function Execute(d: DefaultExecutor): (r: Status)
    ensures HasRunner(d) ==> r == d.runner.value.result
    ensures !HasRunner(d) ==> r == Nil
  {
    if d.DefaultExecutor? && d.runner.Some? then d.runner.value.result else Nil
  }

  /** `Validate` fails exactly when the receiver or its runner is nil. */
  function Validate(d: DefaultExecutor): (r: Status)
    ensures r.Nil? <==> HasRunner(d)
    ensures r.Error? ==> r.msg == NilMessage
  {
    if d.NilExecutor? || d.runner.None? then Error(NilMessage) else Nil
  }

  /** `String` names the executor kind, whatever its state. */
  function Describe(d: DefaultExecutor): (r: string)
  {
    "Default Executor"
  }

  /** The name does not depend on the receiver: a nil executor and one with a runner describe themselves alike. */
  lemma DescribeIgnoresState(a: DefaultExecutor, b: DefaultExecutor)
    ensures Describe(a) == Describe(b) == Describe(NilExecutor) == "Default Executor"
  {
  }

  /**
   * Validation guards execution: when `Validate` succeeds, `Execute` returns
   * exactly the runner's result; when it fails, `Execute` is a no-op.
   */
  lemma ValidateGuardsExecute(d: DefaultExecutor)
    ensures Validate(d).Nil? ==> Execute(d) == d.runner.value.result
    ensures Validate(d).Error? ==> Execute(d) == Nil
  {
  }

  /**
   * A task's executor: the function executor, or a structured executor whose
   * named fields the configuration binder targets and whose `Validate` and
   * `Execute` are user code that may read those fields.
   */
  datatype Exec =
    | Default(d: DefaultExecutor)
    | Bindable(fields: Fields, validate: Fields -> Status, execute: Fields -> Status)

  /** The fields the binder can target; the function executor has none. */
  function FieldsOf(e: Exec): Fields {
    if e.Bindable? then e.fields else map[]
  }

  function WithFields(e: Exec, f: Fields): (r: Exec)
    requires f.Keys == FieldsOf(e).Keys
    ensures FieldsOf(r) == f
    ensures r.Default? <==> e.Default?
    ensures e.Default? ==> r == e
    ensures r.Bindable? ==> r.validate == e.validate && r.execute == e.execute
  {
    if e.Bindable? then e.(fields := f) else e
  }

  function ValidateExec(e: Exec): Status {
    match e
    case Default(d) => Validate(d)
    case Bindable(f, validate, _) => validate(f)
  }

  function ExecuteExec(e: Exec): Status {
    match e
    case Default(d) => Execute(d)
    case Bindable(f, _, execute) => execute(f)
  }
}

/** `defaultPlugin`, a second wrapper around a bare `func() error` (context/plugin.go). */
module Plugin {
  import opened Errors
  import Executor

  /** `*defaultPlugin`: `NilPlugin` is the nil receiver; `runner` is `None` for a nil func. */
  datatype DefaultPlugin = NilPlugin | DefaultPlugin(runner: Option<Executor.Runner>)

  predicate HasRunner(d: DefaultPlugin) {
    d.DefaultPlugin? && d.runner.Some?
  }

  function Execute(d: DefaultPlugin): (r: Status)
    ensures HasRunner(d) ==> r == d.runner.value.result
    ensures !HasRunner(d) ==> r == Nil
  {
    if d.DefaultPlugin? && d.runner.Some? then d.runner.value.result else Nil
  }

  function Validate(d: DefaultPlugin): (r: Status)
    ensures r.Nil? <==> HasRunner(d)
    ensures r.Error? ==> r.msg == Executor.NilMessage
  {
    if d.NilPlugin? || d.runner.None? then Error(Executor.NilMessage) else Nil
  }

  function AsExecutor(d: DefaultPlugin): Executor.DefaultExecutor {
    match d
    case NilPlugin => Executor.NilExecutor
    case DefaultPlugin(runner) => Executor.DefaultExecutor(runner)
  }

  /** The plugin behaves exactly like the function executor wrapping the same runner. */
  lemma AgreesWithExecutor(d: DefaultPlugin)
    ensures Execute(d) == Executor.Execute(AsExecutor(d))
    ensures Validate(d) == Executor.Validate(AsExecutor(d))
  {
  }
}
