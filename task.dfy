/**
 * The task registry and the dependency walker (context/task.go).
 *
 * Tasks live in `Registry.defs`; `Registry.tasks` maps a name to the index
 * of its task, so two names that share an index are two names for one Go
 * `*task` (the aliases `setTaskToDefault` adds). The walk threads the call
 * stack, the executors' state and a record of the executor calls through
 * one `RunTask`.
 */
module Task {
  import opened Errors
  import opened Config
  import opened Executor
  import opened Fmt

  /** One argument of `Task(name, args...)`, by its dynamic type. */
  datatype Arg =
    | TasksArg(names: seq<string>)
    | UsageArg(text: string)
    | GroupArg(group: string)
    | FuncArg(runner: Option<Runner>)
    | ExecutorArg(exec: Exec)
    | ConfigArg(config: Config)
    | UnknownArg

  /** A registered task: `executor == None` makes it a pure aggregation node. */
  datatype TaskDef = TaskDef(
    name: string,
    group: string,
    deps: seq<string>,
    executor: Option<Exec>,
    config: Option<Config>,
    usage: string)

  const EmptyNameMessage := "task name is empty"
  const NoArgsMessage := "task must have dependence tasks or executor function"

  function QualifiedName(group: string, name: string): string {
    group + "." + name
  }

  predicate IsExecArg(a: Arg) {
    a.FuncArg? || a.ExecutorArg?
  }

  /** The executor an argument installs: a bare func is wrapped in a function executor. */
  function ExecOf(a: Arg): Exec
    requires IsExecArg(a)
  {
    if a.FuncArg? then Default(DefaultExecutor(a.runner)) else a.exec
  }

  function LastDeps(args: seq<Arg>): (r: seq<string>)
    ensures (forall i :: 0 <= i < |args| ==> !args[i].TasksArg?) ==> r == []
  {
    if args == [] then []
    else if args[|args| - 1].TasksArg? then args[|args| - 1].names
    else LastDeps(args[..|args| - 1])
  }

  function LastUsage(args: seq<Arg>): string {
    if args == [] then ""
    else if args[|args| - 1].UsageArg? then args[|args| - 1].text
    else LastUsage(args[..|args| - 1])
  }

  function LastGroup(args: seq<Arg>): string {
    if args == [] then ""
    else if args[|args| - 1].GroupArg? then args[|args| - 1].group
    else LastGroup(args[..|args| - 1])
  }

  function LastExec(args: seq<Arg>): (r: Option<Exec>)
    ensures r.Some? <==> exists i :: 0 <= i < |args| && IsExecArg(args[i])
  {
    if args == [] then None
    else if IsExecArg(args[|args| - 1]) then Some(ExecOf(args[|args| - 1]))
    else
      var r := LastExec(args[..|args| - 1]);
      assert forall i :: 0 <= i < |args| - 1 ==> args[i] == args[..|args| - 1][i];
      r
  }

  function LastConfig(args: seq<Arg>): (r: Option<Config>)
    ensures r.Some? <==> exists i :: 0 <= i < |args| && args[i].ConfigArg?
  {
    if args == [] then None
    else if args[|args| - 1].ConfigArg? then Some(args[|args| - 1].config)
    else
      var r := LastConfig(args[..|args| - 1]);
      assert forall i :: 0 <= i < |args| - 1 ==> args[i] == args[..|args| - 1][i];
      r
  }

  /** A panic about the argument at (zero-based) position `i`, which the message numbers from 1. */
  function ArgMessage(what: string, i: nat): string {
    what + " arg[" + Decimal(i + 1) + "]."
  }

  predicate HasUnknown(args: seq<Arg>) {
    exists i :: 0 <= i < |args| && args[i].UnknownArg?
  }

  predicate TwoExecs(args: seq<Arg>) {
    exists i, j :: 0 <= i < j < |args| && IsExecArg(args[i]) && IsExecArg(args[j])
  }

  predicate TwoConfigs(args: seq<Arg>) {
    exists i, j :: 0 <= i < j < |args| && args[i].ConfigArg? && args[j].ConfigArg?
  }

  /** The argument at `i` makes the scan panic, given the arguments before it. */
  predicate BadArgAt(args: seq<Arg>, i: nat)
    requires i < |args|
  {
    || args[i].UnknownArg?
    || (IsExecArg(args[i]) && LastExec(args[..i]).Some?)
    || (args[i].ConfigArg? && LastConfig(args[..i]).Some?)
  }

  /** The panic the argument at `i` raises, the checks taken in the order of the type switch. */
  function BadArgMessage(args: seq<Arg>, i: nat): string
    requires i < |args|
  {
    if args[i].UnknownArg? then ArgMessage("unknown args at", i)
    else if IsExecArg(args[i]) then ArgMessage("there is more than one executor in", i)
    else ArgMessage("there is more than one config in", i)
  }

  /** The three panics as `fmt.Errorf` spells them, numbering the argument from 1. */
  lemma BadArgMessagesSpelled(c: Config)
    ensures BadArgMessage([UnknownArg], 0) == "unknown args at arg[1]."
    ensures BadArgMessage([FuncArg(None), FuncArg(None)], 1) == "there is more than one executor in arg[2]."
    ensures BadArgMessage([ConfigArg(c), UsageArg("u"), ConfigArg(c)], 2) == "there is more than one config in arg[3]."
  {
  }

  /** The arguments make `Task` panic while it scans them. */
  predicate BadArgs(args: seq<Arg>) {
    HasUnknown(args) || TwoExecs(args) || TwoConfigs(args)
  }

  /**
   * The task the arguments describe: later dependency lists, usages and
   * groups replace earlier ones, and an empty group falls back to the
   * caller's group.
   */
  function Parsed(name: string, args: seq<Arg>, callerGroup: string): TaskDef {
    var g := LastGroup(args);
    TaskDef(name, if g == "" then callerGroup else g, LastDeps(args), LastExec(args), LastConfig(args), LastUsage(args))
  }

  /**
   * The argument loop of `Task`: it panics on an argument of unknown type,
   * on a second executor and on a second configuration, and otherwise
   * builds the task.
   */
  method ParseArgs(name: string, args: seq<Arg>, callerGroup: string) returns (o: Outcome<TaskDef>)
    ensures o.Panic? <==> BadArgs(args)
    ensures o.Panic? ==> exists i :: 0 <= i < |args| && !BadArgs(args[..i]) && BadArgAt(args, i) && o.msg == BadArgMessage(args, i)
    ensures o.Return? ==> o.value == Parsed(name, args, callerGroup)
  {
    var t := TaskDef(name, "", [], None, None, "");
    var i := 0;
    while i < |args|
      invariant 0 <= i <= |args|
      invariant !BadArgs(args[..i])
      invariant t == TaskDef(name, LastGroup(args[..i]), LastDeps(args[..i]), LastExec(args[..i]),
                             LastConfig(args[..i]), LastUsage(args[..i]))
    {
      var a := args[i];
      if a.UnknownArg? {
        assert args[i].UnknownArg?;
        return Panic(ArgMessage("unknown args at", i));
      }
      if IsExecArg(a) && t.executor.Some? {
        var j :| 0 <= j < i && IsExecArg(args[..i][j]);
        assert IsExecArg(args[j]) && IsExecArg(args[i]);
        return Panic(ArgMessage("there is more than one executor in", i));
      }
      if a.ConfigArg? && t.config.Some? {
        var j :| 0 <= j < i && args[..i][j].ConfigArg?;
        assert args[j].ConfigArg? && args[i].ConfigArg?;
        return Panic(ArgMessage("there is more than one config in", i));
      }
      match a {
        case TasksArg(names) => t := t.(deps := names);
        case UsageArg(text) => t := t.(usage := text);
        case GroupArg(g) => t := t.(group := g);
        case FuncArg(_) => t := t.(executor := Some(ExecOf(a)));
        case ExecutorArg(e) => t := t.(executor := Some(e));
        case ConfigArg(c) => t := t.(config := Some(c));
      }
      ParseStep(args, i);
      i := i + 1;
    }
    assert args[..i] == args;
    if t.group == "" {
      t := t.(group := callerGroup);
    }
    return Return(t);
  }

  /** One more argument accepted by the loop of `ParseArgs`. */
  lemma ParseStep(args: seq<Arg>, i: nat)
    requires i < |args| && !BadArgs(args[..i]) && !args[i].UnknownArg?
    requires IsExecArg(args[i]) ==> LastExec(args[..i]).None?
    requires args[i].ConfigArg? ==> LastConfig(args[..i]).None?
    ensures !BadArgs(args[..i + 1])
    ensures LastDeps(args[..i + 1]) == if args[i].TasksArg? then args[i].names else LastDeps(args[..i])
    ensures LastUsage(args[..i + 1]) == if args[i].UsageArg? then args[i].text else LastUsage(args[..i])
    ensures LastGroup(args[..i + 1]) == if args[i].GroupArg? then args[i].group else LastGroup(args[..i])
    ensures LastExec(args[..i + 1]) == if IsExecArg(args[i]) then Some(ExecOf(args[i])) else LastExec(args[..i])
    ensures LastConfig(args[..i + 1]) == if args[i].ConfigArg? then Some(args[i].config) else LastConfig(args[..i])
  {
    var pre, cur := args[..i], args[..i + 1];
    assert cur[..i] == pre && cur[i] == args[i];
    forall x | 0 <= x < |cur| ensures !cur[x].UnknownArg? {
      if x < i { assert cur[x] == pre[x]; }
    }
    forall x, y | 0 <= x < y < |cur| && IsExecArg(cur[x]) ensures !IsExecArg(cur[y]) {
      assert cur[x] == pre[x];
      if y < i { assert cur[y] == pre[y]; }
    }
    forall x, y | 0 <= x < y < |cur| && cur[x].ConfigArg? ensures !cur[y].ConfigArg? {
      assert cur[x] == pre[x];
      if y < i { assert cur[y] == pre[y]; }
    }
  }

  predicate HasPrefix(s: string, p: string) {
    |p| <= |s| && s[..|p|] == p
  }

  lemma JoinStrip(p: string, s: string)
    ensures HasPrefix(p + s, p) && (p + s)[|p|..] == s
  {
  }

  function Stripped(keys: set<string>, p: string): set<string> {
    set k | k in keys && HasPrefix(k, p) :: k[|p|..]
  }

  /** The short names `setTaskToDefault` adds: `s` stands for the task under `p + s`. */
  function Aliases(m: map<string, nat>, p: string): map<string, nat> {
    map s | s in Stripped(m.Keys, p) && p + s in m :: m[p + s]
  }

  /** A short name is an alias exactly when the prefixed name is registered, and stands for that task. */
  lemma AliasesAt(m: map<string, nat>, p: string, s: string)
    ensures s in Aliases(m, p) <==> p + s in m
    ensures s in Aliases(m, p) ==> Aliases(m, p)[s] == m[p + s]
  {
    JoinStrip(p, s);
    if p + s in m {
      assert s in Stripped(m.Keys, p);
    }
  }

  function Restrict(m: map<string, nat>, keys: set<string>): (r: map<string, nat>)
    ensures r.Keys == m.Keys * keys
    ensures forall k :: k in r ==> r[k] == m[k]
  {
    map k | k in m && k in keys :: m[k]
  }

  lemma AliasesStepInAt(m: map<string, nat>, p: string, done: set<string>, k: string, s: string)
    requires k in m && HasPrefix(k, p)
    ensures var a, b := Aliases(Restrict(m, done + {k}), p), Aliases(Restrict(m, done), p);
      && (s in a <==> s in b || s == k[|p|..])
      && (s in a ==> a[s] == if s == k[|p|..] then m[k] else b[s])
  {
    assert p + k[|p|..] == k by { assert k == k[..|p|] + k[|p|..]; }
    AliasesAt(Restrict(m, done + {k}), p, s);
    AliasesAt(Restrict(m, done), p, s);
    if s != k[|p|..] {
      JoinStrip(p, s);
    }
  }

  lemma MapUpdateExt(a: map<string, nat>, b: map<string, nat>, s0: string, v: nat)
    requires forall s :: (s in a <==> s in b || s == s0) && (s in a ==> a[s] == if s == s0 then v else b[s])
    ensures a == b[s0 := v]
  {
  }

  lemma AliasesStepIn(m: map<string, nat>, p: string, done: set<string>, k: string)
    requires k in m && HasPrefix(k, p)
    ensures Aliases(Restrict(m, done + {k}), p) == Aliases(Restrict(m, done), p)[k[|p|..] := m[k]]
  {
    forall s {
      AliasesStepInAt(m, p, done, k, s);
    }
    MapUpdateExt(Aliases(Restrict(m, done + {k}), p), Aliases(Restrict(m, done), p), k[|p|..], m[k]);
  }

  lemma AliasesStepOutAt(m: map<string, nat>, p: string, done: set<string>, k: string, s: string)
    requires k in m && !HasPrefix(k, p)
    ensures var a, b := Aliases(Restrict(m, done + {k}), p), Aliases(Restrict(m, done), p);
      (s in a <==> s in b) && (s in a ==> a[s] == b[s])
  {
    AliasesAt(Restrict(m, done + {k}), p, s);
    AliasesAt(Restrict(m, done), p, s);
    JoinStrip(p, s);
  }

  lemma MapExt(a: map<string, nat>, b: map<string, nat>)
    requires forall s :: (s in a <==> s in b) && (s in a ==> a[s] == b[s])
    ensures a == b
  {
  }

  lemma AliasesStepOut(m: map<string, nat>, p: string, done: set<string>, k: string)
    requires k in m && !HasPrefix(k, p)
    ensures Aliases(Restrict(m, done + {k}), p) == Aliases(Restrict(m, done), p)
  {
    forall s {
      AliasesStepOutAt(m, p, done, k, s);
    }
    MapExt(Aliases(Restrict(m, done + {k}), p), Aliases(Restrict(m, done), p));
  }

  /** The registry after promoting the names in `done` only. */
  function Promoted(m: map<string, nat>, p: string, done: set<string>): map<string, nat> {
    m + Aliases(Restrict(m, done), p)
  }

  lemma PromoteStep(m: map<string, nat>, p: string, done: set<string>, k: string)
    requires k in m
    ensures HasPrefix(k, p) ==> Promoted(m, p, done + {k}) == Promoted(m, p, done)[k[|p|..] := m[k]]
    ensures !HasPrefix(k, p) ==> Promoted(m, p, done + {k}) == Promoted(m, p, done)
  {
    if !HasPrefix(k, p) {
      AliasesStepOut(m, p, done, k);
    } else {
      AliasesStepIn(m, p, done, k);
      UnionUpdate(m, Aliases(Restrict(m, done), p), k[|p|..], m[k]);
    }
  }

  lemma UnionUpdate(m: map<string, nat>, a: map<string, nat>, s: string, v: nat)
    ensures m + a[s := v] == (m + a)[s := v]
  {
  }

  lemma PromotedAll(m: map<string, nat>, p: string, done: set<string>)
    requires m.Keys <= done
    ensures Promoted(m, p, done) == m + Aliases(m, p)
  {
    assert Restrict(m, done) == m;
  }

  /** The registry after `setTaskToDefault` on each of `groups`, in order. */
  function PromotedGroups(m: map<string, nat>, groups: seq<string>): map<string, nat>
    decreases |groups|
  {
    if groups == [] then m
    else
      var t := PromotedGroups(m, groups[..|groups| - 1]);
      t + Aliases(t, groups[|groups| - 1] + ".")
  }

  /** Promoting several groups loses no registered name. */
  lemma {:induction false} PromotedGroupsKeepsNames(m: map<string, nat>, groups: seq<string>)
    ensures forall k :: k in m ==> k in PromotedGroups(m, groups)
    decreases |groups|
  {
    if groups != [] {
      PromotedGroupsKeepsNames(m, groups[..|groups| - 1]);
    }
  }

  /**
   * The groups are promoted in order: after a group `g`, a short name `s`
   * stands for the task that `g.s` named just before, whatever earlier
   * groups made of `s`.
   */
  lemma PromotedGroupsLaterWins(m: map<string, nat>, groups: seq<string>, g: string, s: string)
    requires g + "." + s in PromotedGroups(m, groups)
    ensures s in PromotedGroups(m, groups + [g])
    ensures PromotedGroups(m, groups + [g])[s] == PromotedGroups(m, groups)[g + "." + s]
  {
    assert (groups + [g])[..|groups|] == groups;
    PromotionKeepsNames(PromotedGroups(m, groups), g + ".");
  }

  lemma PromotionIndexes(m: map<string, nat>, p: string, defs: seq<TaskDef>)
    requires Indexes(m, defs)
    ensures Indexes(m + Aliases(m, p), defs)
  {
    forall s | s in Aliases(m, p) ensures Aliases(m, p)[s] < |defs| {
      AliasesAt(m, p, s);
    }
  }

  /**
   * Promotion is non-destructive for every name that is not also a short
   * name, and a short name reaches the task under its prefixed name.
   */
  lemma PromotionKeepsNames(m: map<string, nat>, p: string)
    ensures forall k :: k in m ==> k in m + Aliases(m, p)
    ensures forall s :: p + s in m ==> s in m + Aliases(m, p) && (m + Aliases(m, p))[s] == m[p + s]
    ensures forall k :: k in m && k !in Aliases(m, p) ==> (m + Aliases(m, p))[k] == m[k]
  {
    forall s | p + s in m ensures s in m + Aliases(m, p) && (m + Aliases(m, p))[s] == m[p + s] {
      AliasesAt(m, p, s);
    }
  }

  /** The call stack's push: a name already on the stack is a recursion. */
  function Push(stack: seq<string>, name: string): (r: Result<seq<string>>)
    ensures r.Failed? <==> name in stack
    ensures r.Failed? ==> r.msg == RecursionMessage(name, stack)
    ensures r.Ok? ==> r.value == stack + [name]
  {
    if name in stack then Failed(RecursionMessage(name, stack)) else Ok(stack + [name])
  }

  /** The elements of a string slice as `%v` prints them: separated by single spaces. */
  function Words(s: seq<string>): string
    decreases |s|
  {
    if s == [] then "" else if |s| == 1 then s[0] else s[0] + " " + Words(s[1..])
  }

  /** The recursion error, with the stack as `%v` prints a pointer to a slice. */
  function RecursionMessage(name: string, stack: seq<string>): string {
    "Already run task: " + name + ", there is a recursion call. Call sequence:&[" + Words(stack) + "]"
  }

  function NotFoundMessage(name: string): string {
    "Could not find task: " + name
  }

  /** `taskStack`: the names being walked by one `RunTask`. */
  class TaskStack {
    var names: seq<string>

    constructor ()
      ensures names == []
    {
      names := [];
    }

    /** `pushTask` (pointer receiver): fails iff the name is on the stack, else appends it. */
    method PushTask(name: string) returns (err: Status)
      modifies this
      ensures err.Error? <==> name in old(names)
      ensures Push(old(names), name).Ok? ==> names == Push(old(names), name).value && err == Nil
      ensures Push(old(names), name).Failed? ==> names == old(names) && err == Error(Push(old(names), name).msg)
    {
      if |names| == 0 {
        names := names + [name];
      } else {
        var i := 0;
        while i < |names|
          invariant 0 <= i <= |names|
          invariant names == old(names)
          invariant name !in names[..i]
        {
          if names[i] == name {
            return Error(RecursionMessage(names[i], names));
          }
          i := i + 1;
        }
        assert names[..i] == names;
        names := names + [name];
      }
      return Nil;
    }

    /**
     * `popTask` has a value receiver: it truncates a copy of the slice
     * header, so the caller's stack is left as it was.
     */
    method PopTask()
      ensures names == old(names)
    {
      var t := names;
      if |t| > 0 {
        t := t[..|t| - 1];
      }
    }
  }

  /** The group's configuration tree in the shared store, with the sub-trees of its tasks. */
  datatype GroupConfig = GroupConfig(own: Config, perTask: map<string, Config>)

  /** The store's `tasks` sub-tree, by group name. */
  type Env = map<string, GroupConfig>

  /**
   * The configuration layers of a task, lowest precedence first: its default
   * configuration, its group's, the task's own sub-tree of the group's (only
   * when the group has one), and the per-run override.
   */
  function Layers(t: TaskDef, env: Env, override: Option<Config>): seq<Config> {
    (if t.config.Some? then [t.config.value] else [])
    + (if t.group in env
       then [env[t.group].own] + (if t.name in env[t.group].perTask then [env[t.group].perTask[t.name]] else [])
       else [])
    + (if override.Some? then [override.value] else [])
  }

  /**
   * `configTask`: binds the layers onto the executor's fields, stopping at a
   * layer the binder rejects; a task without executor is left alone.
   */
  function ConfigTask(t: TaskDef, env: Env, override: Option<Config>): (r: (Option<Exec>, Status))
    ensures t.executor.None? <==> r.0.None?
  {
    match t.executor
    case None => (None, Nil)
    case Some(e) =>
      var (f, err) := ApplyAll(FieldsOf(e), Layers(t, env, override));
      (Some(WithFields(e, f)), err)
  }

  /**
   * Configuring keeps the executor's kind and field names, fails exactly
   * when some layer cannot be bound, and otherwise leaves the fields the
   * layers give, in order.
   */
  lemma ConfigTaskFacts(t: TaskDef, env: Env, override: Option<Config>)
    ensures var r := ConfigTask(t, env, override);
      && (t.executor.None? ==> r == (None, Nil))
      && (t.executor.Some? ==> r.0.Some? && r.0.value.Default? == t.executor.value.Default?)
      && (t.executor.Some? ==> FieldsOf(r.0.value).Keys == FieldsOf(t.executor.value).Keys)
      && (r.1.Nil? <==> t.executor.None? || forall i :: 0 <= i < |Layers(t, env, override)| ==> Layers(t, env, override)[i].Layer?)
      && (t.executor.Some? ==>
            FieldsOf(r.0.value) == ApplyAll(FieldsOf(t.executor.value), Layers(t, env, override)).0)
      && (t.executor.Some? && t.executor.value.Default? ==> r.0 == t.executor)
      && (t.executor.Some? && t.executor.value.Bindable? ==>
            r.0.value.validate == t.executor.value.validate && r.0.value.execute == t.executor.value.execute)
      && (t.executor.Some? && r.1.Error? ==>
            var layers := Layers(t, env, override);
            exists i :: 0 <= i < |layers| && layers[i].Unbindable? && (forall j :: 0 <= j < i ==> layers[j].Layer?)
              && r.1 == Error(layers[i].reason)
              && FieldsOf(r.0.value) == ApplyAll(FieldsOf(t.executor.value), layers[..i]).0)
  {
    var r := ConfigTask(t, env, override);
    if t.executor.Some? && r.1.Error? {
      var layers := Layers(t, env, override);
      var k :| 0 <= k < |layers| && !layers[k].Layer?;
      var i := FirstRejected(layers, k);
      ApplyAllStops(FieldsOf(t.executor.value), layers, i);
    }
  }

  /**
   * The override is the last layer: when every layer binds and the override
   * names a field with the field's kind, the configured field holds the
   * override's value, whatever the lower layers say.
   */
  lemma OverrideWins(t: TaskDef, env: Env, override: Config, k: string)
    requires t.executor.Some? && k in FieldsOf(t.executor.value)
    requires forall i :: 0 <= i < |Layers(t, env, Some(override))| ==> Layers(t, env, Some(override))[i].Layer?
    requires override.Layer? && Assigned(override.values, k, FieldsOf(t.executor.value)[k]).Some?
    ensures var r := ConfigTask(t, env, Some(override));
      r.1 == Nil && r.0.Some? && k in FieldsOf(r.0.value) && FieldsOf(r.0.value)[k] == override.values[k]
  {
    var layers := Layers(t, env, Some(override));
    var f := FieldsOf(t.executor.value);
    ConfigTaskFacts(t, env, Some(override));
    LastLayerWins(f, layers, k);
    assert layers[|layers| - 1] == override;
  }

  /** The `tasktest.test` scenario: a struct executor with an integer `num` and a string `baseDir`. */
  const ScenarioFields: Fields := map["num" := Int(0), "baseDir" := Str("")]
  const ScenarioDefault := Layer(map["baseDir" := Str("bb"), "num" := Int(3)])
  const ScenarioGroup := Layer(map["baseDir" := Str("dd"), "num" := Int(5)])
  const ScenarioTaskLayer := Layer(map["num" := Int(4), "test" := Int(1)])

  /**
   * The four layers in the scenario: the task's own default `{baseDir: bb,
   * num: 3}`, the group's `{baseDir: dd, num: 5}`, the task-specific
   * `{num: 4, test: 1}` and an empty override. The task-specific `num` beats
   * the group's and the default's, and the group's `baseDir` beats the
   * default's.
   */
  lemma ConfigScenario(validate: Fields -> Status, execute: Fields -> Status)
    ensures
      var t := TaskDef("test", "tasktest", [], Some(Bindable(ScenarioFields, validate, execute)), Some(ScenarioDefault), "");
      var env := map["tasktest" := GroupConfig(ScenarioGroup, map["test" := ScenarioTaskLayer])];
      var r := ConfigTask(t, env, Some(Layer(map[])));
      && r.1 == Nil && r.0.Some?
      && "num" in FieldsOf(r.0.value) && FieldsOf(r.0.value)["num"] == Int(4)
      && "baseDir" in FieldsOf(r.0.value) && FieldsOf(r.0.value)["baseDir"] == Str("dd")
  {
    var t := TaskDef("test", "tasktest", [], Some(Bindable(ScenarioFields, validate, execute)), Some(ScenarioDefault), "");
    var env := map["tasktest" := GroupConfig(ScenarioGroup, map["test" := ScenarioTaskLayer])];
    var layers := Layers(t, env, Some(Layer(map[])));
    assert layers == ScenarioLayers;
    ConfigTaskFacts(t, env, Some(Layer(map[])));
    LastLayerWins(ScenarioFields, layers, "num");
    LastLayerWins(ScenarioFields, layers, "baseDir");
    ScenarioWinners();
  }

  const ScenarioLayers := [ScenarioDefault, ScenarioGroup, ScenarioTaskLayer, Layer(map[])]

  lemma ScenarioWinners()
    ensures Winner(ScenarioLayers, "num", Int(0)) == Some(Int(4))
    ensures Winner(ScenarioLayers, "baseDir", Str("")) == Some(Str("dd"))
  {
    var layers := ScenarioLayers;
    assert layers[..3] == [ScenarioDefault, ScenarioGroup, ScenarioTaskLayer];
    assert layers[..3][..2] == [ScenarioDefault, ScenarioGroup];
    assert "baseDir" !in ScenarioTaskLayer.values;
    assert Winner(layers[..3][..2], "baseDir", Str("")) == Some(Str("dd"));
    assert Winner(layers[..3], "baseDir", Str("")) == Some(Str("dd"));
  }

  /** A call the engine makes on an executor, by task index. */
  datatype Call = ValidateCall(id: nat) | ExecuteCall(id: nat)

  /**
   * What one `RunTask` threads through its walk: the call stack, the tasks
   * (whose executors configuration rewrites), the names whose task was done,
   * in order, and the executor calls made, in order.
   */
  datatype RunState = RunState(stack: seq<string>, defs: seq<TaskDef>, visited: seq<string>, calls: seq<Call>)

  /**
   * The callback `RunTask` hands the walker, for the task `name` at index
   * `id`: configure (the override only for the task object `RunTask` was
   * asked for), then `Validate`, then `Execute`.
   */
  function DoTask(env: Env, root: nat, override: Option<Config>, st: RunState, name: string, id: nat): (r: (Status, RunState))
    requires id < |st.defs|
    ensures r.1.stack == st.stack && r.1.visited == st.visited + [name] && |r.1.defs| == |st.defs|
  {
    var t := st.defs[id];
    var (exec, cerr) := ConfigTask(t, env, if id == root then override else None);
    var st1 := st.(defs := st.defs[id := t.(executor := exec)], visited := st.visited + [name]);
    if exec.None? then (Nil, st1)
    else if cerr.Error? then (cerr, st1)
    else
      var v := ValidateExec(exec.value);
      if v.Error? then (v, st1.(calls := st1.calls + [ValidateCall(id)]))
      else (ExecuteExec(exec.value), st1.(calls := st1.calls + [ValidateCall(id), ExecuteCall(id)]))
  }

  /**
   * The life cycle of one task: only its own executor changes, a task
   * without executor makes no call, a configuration error stops before
   * `Validate`, a validation error stops before `Execute`, and otherwise
   * the result is that of `Execute`.
   */
  lemma DoTaskLifecycle(env: Env, root: nat, override: Option<Config>, st: RunState, name: string, id: nat)
    requires id < |st.defs|
    ensures var r := DoTask(env, root, override, st, name, id);
      && (forall j :: 0 <= j < |st.defs| && j != id ==> r.1.defs[j] == st.defs[j])
      && r.1.defs[id].deps == st.defs[id].deps && r.1.defs[id].executor.Some? == st.defs[id].executor.Some?
      && (st.defs[id].executor.None? ==> r.0 == Nil && r.1.calls == st.calls && r.1.defs == st.defs)
      && (st.defs[id].executor.Some? ==>
            var (exec, cerr) := ConfigTask(st.defs[id], env, if id == root then override else None);
            && r.1.defs[id].executor == exec
            && (cerr.Error? ==> r.0 == cerr && r.1.calls == st.calls)
            && (cerr.Nil? && ValidateExec(exec.value).Error? ==>
                  r.0 == ValidateExec(exec.value) && r.1.calls == st.calls + [ValidateCall(id)])
            && (cerr.Nil? && ValidateExec(exec.value).Nil? ==>
                  r.0 == ExecuteExec(exec.value) && r.1.calls == st.calls + [ValidateCall(id), ExecuteCall(id)]))
  {
    var t := st.defs[id];
    if t.executor.None? {
      assert t.(executor := None) == t;
      assert st.defs[id := t] == st.defs;
    }
  }

  function SetOf(s: seq<string>): set<string> {
    set x | x in s
  }

  lemma StrictSubsetSmaller(a: set<string>, b: set<string>, x: string)
    requires a <= b && x in b && x !in a
    ensures |a| < |b|
  {
    assert b == a + (b - a);
    assert x in b - a;
  }

  lemma SubsetNotLarger(a: set<string>, b: set<string>)
    requires a <= b
    ensures |a| <= |b|
  {
    assert b == a + (b - a);
  }

  lemma StackSetGrows(a: seq<string>, b: seq<string>)
    requires |a| <= |b| && b[..|a|] == a
    ensures SetOf(a) <= SetOf(b)
  {
    forall x | x in SetOf(a) ensures x in SetOf(b) {
      var i :| 0 <= i < |a| && a[i] == x;
      assert b[i] == x;
    }
  }

  ghost predicate Extends<T>(longer: seq<T>, prefix: seq<T>) {
    |prefix| <= |longer| && longer[..|prefix|] == prefix
  }

  lemma ExtendsTrans<T>(a: seq<T>, b: seq<T>, c: seq<T>)
    requires Extends(b, a) && Extends(c, b)
    ensures Extends(c, a)
  {
    assert c[..|a|] == c[..|b|][..|a|];
  }

  lemma ExtendsPushed<T>(a: seq<T>, b: seq<T>, x: T)
    requires Extends(b, a + [x])
    ensures |b| > |a| && b[|a|] == x
  {
    assert b[|a|] == b[..|a| + 1][|a|];
  }

  lemma ExtendsSnoc<T>(a: seq<T>, b: seq<T>, x: T)
    requires Extends(b, a)
    ensures Extends(b + [x], a)
  {
    assert (b + [x])[..|a|] == b[..|a|];
  }

  predicate Indexes(reg: map<string, nat>, defs: seq<TaskDef>) {
    forall k :: k in reg ==> reg[k] < |defs|
  }

  /**
   * `walkTask`: push the name, walk its dependencies left to right stopping
   * at the first error, then do the task. The deferred pop does not shrink
   * the stack, so the stack only grows.
   */
  function Walk(reg: map<string, nat>, env: Env, root: nat, override: Option<Config>, st: RunState, name: string): (r: (Status, RunState))
    requires Indexes(reg, st.defs)
    ensures Extends(r.1.stack, st.stack) && Extends(r.1.visited, st.visited) && |r.1.defs| == |st.defs|
    ensures name in st.stack ==> r == (Error(RecursionMessage(name, st.stack)), st)
    ensures name !in st.stack && name !in reg ==> r == (Error(NotFoundMessage(name)), st.(stack := st.stack + [name]))
    decreases |reg.Keys - SetOf(st.stack)|, 0, 0
  {
    match Push(st.stack, name)
    case Failed(msg) => (Error(msg), st)
    case Ok(stack) =>
      var st1 := st.(stack := stack);
      if name !in reg then (Error(NotFoundMessage(name)), st1)
      else
        var id := reg[name];
        StrictSubsetSmaller(reg.Keys - SetOf(stack), reg.Keys - SetOf(st.stack), name);
        var (err, st2) := WalkDeps(reg, env, root, override, st1, st.defs[id].deps);
        ExtendsTrans(st.stack, st1.stack, st2.stack);
        if err.Error? then (err, st2)
        else
          ExtendsSnoc(st.visited, st2.visited, name);
          DoTask(env, root, override, st2, name, id)
  }

  function WalkDeps(reg: map<string, nat>, env: Env, root: nat, override: Option<Config>, st: RunState, deps: seq<string>): (r: (Status, RunState))
    requires Indexes(reg, st.defs)
    ensures Extends(r.1.stack, st.stack) && Extends(r.1.visited, st.visited) && |r.1.defs| == |st.defs|
    decreases |reg.Keys - SetOf(st.stack)|, 1, |deps|
  {
    if deps == [] then (Nil, st)
    else
      var (err, st1) := Walk(reg, env, root, override, st, deps[0]);
      if err.Error? then (err, st1)
      else
        StackSetGrows(st.stack, st1.stack);
        SubsetNotLarger(reg.Keys - SetOf(st1.stack), reg.Keys - SetOf(st.stack));
        var (err2, st2) := WalkDeps(reg, env, root, override, st1, deps[1..]);
        ExtendsTrans(st.stack, st1.stack, st2.stack);
        ExtendsTrans(st.visited, st1.visited, st2.visited);
        (err2, st2)
  }

  ghost predicate NoDup(s: seq<string>) {
    forall i, j :: 0 <= i < j < |s| ==> s[i] != s[j]
  }

  /** The stack and the done names hold no name twice, and every done name was pushed. */
  ghost predicate Consistent(st: RunState) {
    NoDup(st.stack) && NoDup(st.visited) && forall x :: x in st.visited ==> x in st.stack
  }

  /**
   * From `a` to `b` the run only grew, stayed consistent, and every name
   * done in between was pushed in between.
   */
  ghost predicate Grows(a: RunState, b: RunState) {
    && Extends(b.stack, a.stack) && Extends(b.visited, a.visited) && Consistent(b)
    && forall x :: x in b.visited[|a.visited|..] ==> x in b.stack[|a.stack|..]
  }

  lemma GrowsTrans(a: RunState, b: RunState, c: RunState)
    requires Grows(a, b) && Grows(b, c)
    ensures Grows(a, c)
  {
    assert c.stack[..|b.stack|] == b.stack;
    assert c.visited[..|b.visited|] == b.visited;
    assert c.stack[..|a.stack|] == a.stack by { assert c.stack[..|a.stack|] == c.stack[..|b.stack|][..|a.stack|]; }
    assert c.visited[..|a.visited|] == a.visited by { assert c.visited[..|a.visited|] == c.visited[..|b.visited|][..|a.visited|]; }
    forall x | x in c.visited[|a.visited|..] ensures x in c.stack[|a.stack|..] {
      var k :| |a.visited| <= k < |c.visited| && c.visited[k] == x;
      if k < |b.visited| {
        assert x == b.visited[|a.visited|..][k - |a.visited|];
        assert x in b.stack[|a.stack|..];
        var j :| 0 <= j < |b.stack[|a.stack|..]| && b.stack[|a.stack|..][j] == x;
        assert c.stack[j + |a.stack|] == x;
        assert c.stack[|a.stack|..][j] == x;
      } else {
        assert x == c.visited[|b.visited|..][k - |b.visited|];
        assert x in c.stack[|b.stack|..];
        var j :| 0 <= j < |c.stack[|b.stack|..]| && c.stack[|b.stack|..][j] == x;
        assert c.stack[|a.stack|..][j + |b.stack| - |a.stack|] == x;
      }
    }
  }

  lemma GrowsRefl(a: RunState)
    requires Consistent(a)
    ensures Grows(a, a)
  {
    assert a.visited[|a.visited|..] == [];
  }

  lemma GrowsPush(a: RunState, name: string)
    requires Consistent(a) && name !in a.stack
    ensures Grows(a, a.(stack := a.stack + [name]))
  {
    var b := a.(stack := a.stack + [name]);
    assert b.stack[..|a.stack|] == a.stack;
    assert a.visited[|a.visited|..] == [];
  }

  /** Doing the task `name`, pushed right after `a`, after the walk of its dependencies reached `b`. */
  lemma GrowsDone(a: RunState, b: RunState, c: RunState, name: string)
    requires Consistent(a) && name !in a.stack && Grows(a, b)
    requires |b.stack| > |a.stack| && b.stack[|a.stack|] == name
    requires Grows(a.(stack := a.stack + [name]), b)
    requires c.stack == b.stack && c.visited == b.visited + [name]
    ensures Grows(a, c) && name !in b.visited
  {
    forall k | 0 <= k < |b.visited| ensures b.visited[k] != name {
      if k < |a.visited| {
        assert b.visited[k] == a.visited[k];
        assert a.visited[k] in a.visited;
      } else {
        assert b.visited[k] == b.visited[|a.visited|..][k - |a.visited|];
        assert b.visited[k] in b.stack[|a.stack| + 1..];
        var m :| |a.stack| + 1 <= m < |b.stack| && b.stack[m] == b.visited[k];
      }
    }
    assert c.visited[..|a.visited|] == b.visited[..|a.visited|];
    forall x | x in c.visited[|a.visited|..] ensures x in c.stack[|a.stack|..] {
      if x != name {
        assert x in b.visited[|a.visited|..];
      } else {
        assert c.stack[|a.stack|..][0] == name;
      }
    }
  }

  /** `d` was done between `a` and `b`. */
  ghost predicate DoneSince(a: RunState, b: RunState, d: string) {
    |a.visited| <= |b.visited| && d in b.visited[|a.visited|..]
  }

  lemma DoneSinceLater(a: RunState, b: RunState, c: RunState, d: string)
    requires DoneSince(a, b, d) && Extends(c.visited, b.visited) && |a.visited| <= |b.visited|
    ensures DoneSince(a, c, d)
  {
    var k :| |a.visited| <= k < |b.visited| && b.visited[k] == d;
    assert c.visited[k] == d by { assert c.visited[..|b.visited|] == b.visited; }
    assert c.visited[|a.visited|..][k - |a.visited|] == d;
  }

  /** The first dependency is done by its own walk, the rest by the walk of the others. */
  lemma DepsDone(st: RunState, st1: RunState, st2: RunState, deps: seq<string>)
    requires deps != [] && DoneLast(st, st1, deps[0])
    requires Extends(st1.visited, st.visited) && Extends(st2.visited, st1.visited)
    requires forall d :: d in deps[1..] ==> DoneSince(st1, st2, d)
    ensures forall d :: d in deps ==> DoneSince(st, st2, d)
  {
    assert st1.visited[|st.visited|..][|st1.visited| - 1 - |st.visited|] == deps[0];
    DoneSinceLater(st, st1, st2, deps[0]);
    forall d | d in deps[1..] ensures DoneSince(st, st2, d) {
      DoneSinceEarlier(st, st1, st2, d);
    }
    forall d | d in deps ensures DoneSince(st, st2, d) {
      if d != deps[0] {
        assert d in deps[1..];
      }
    }
  }

  lemma DoneSinceEarlier(a: RunState, b: RunState, c: RunState, d: string)
    requires DoneSince(b, c, d) && Extends(b.visited, a.visited)
    ensures DoneSince(a, c, d)
  {
    var j :| 0 <= j < |c.visited[|b.visited|..]| && c.visited[|b.visited|..][j] == d;
    assert c.visited[|a.visited|..][j + |b.visited| - |a.visited|] == d;
  }

  /** The last name done between `a` and `b` is `name`. */
  ghost predicate DoneLast(a: RunState, b: RunState, name: string) {
    |a.visited| < |b.visited| && b.visited[|b.visited| - 1] == name
  }

  /** `d` was done between `a` and `b`, before the last name done. */
  ghost predicate DoneBefore(a: RunState, b: RunState, d: string) {
    |a.visited| < |b.visited| && d in b.visited[|a.visited|..|b.visited| - 1]
  }

  /**
   * Facts about one walk: it keeps the run consistent, every task it does
   * was pushed by it, and when it succeeds the task itself is done last,
   * after every one of its dependencies.
   */
  lemma {:induction false} WalkFacts(reg: map<string, nat>, env: Env, root: nat, override: Option<Config>, st: RunState, name: string)
    requires Indexes(reg, st.defs) && Consistent(st)
    ensures Grows(st, Walk(reg, env, root, override, st, name).1)
    ensures Walk(reg, env, root, override, st, name).0.Nil? ==> name in reg && DoneLast(st, Walk(reg, env, root, override, st, name).1, name)
    ensures Walk(reg, env, root, override, st, name).0.Nil? ==>
      forall d :: d in st.defs[reg[name]].deps ==> DoneBefore(st, Walk(reg, env, root, override, st, name).1, d)
    decreases |reg.Keys - SetOf(st.stack)|, 0, 0
  {
    if name in st.stack {
      GrowsRefl(st);
      return;
    }
    var st1 := st.(stack := st.stack + [name]);
    GrowsPush(st, name);
    if name !in reg {
      return;
    }
    var id := reg[name];
    var deps := st.defs[id].deps;
    StrictSubsetSmaller(reg.Keys - SetOf(st1.stack), reg.Keys - SetOf(st.stack), name);
    WalkDepsFacts(reg, env, root, override, st1, deps);
    var w := WalkDeps(reg, env, root, override, st1, deps);
    var err, st2 := w.0, w.1;
    GrowsTrans(st, st1, st2);
    ExtendsPushed(st.stack, st2.stack, name);
    if err.Error? {
      return;
    }
    var r := DoTask(env, root, override, st2, name, id);
    assert Walk(reg, env, root, override, st, name) == r;
    GrowsDone(st, st2, r.1, name);
    forall d | d in deps ensures d in r.1.visited[|st.visited|..|r.1.visited| - 1] {
      assert DoneSince(st1, st2, d);
      assert r.1.visited[|st.visited|..|r.1.visited| - 1] == st2.visited[|st.visited|..];
    }
  }

  lemma {:induction false} WalkDepsFacts(reg: map<string, nat>, env: Env, root: nat, override: Option<Config>, st: RunState, deps: seq<string>)
    requires Indexes(reg, st.defs) && Consistent(st)
    ensures Grows(st, WalkDeps(reg, env, root, override, st, deps).1)
    ensures WalkDeps(reg, env, root, override, st, deps).0.Nil? ==>
      forall d :: d in deps ==> DoneSince(st, WalkDeps(reg, env, root, override, st, deps).1, d)
    decreases |reg.Keys - SetOf(st.stack)|, 1, |deps|
  {
    if deps == [] {
      GrowsRefl(st);
      return;
    }
    WalkFacts(reg, env, root, override, st, deps[0]);
    var w := Walk(reg, env, root, override, st, deps[0]);
    var err, st1 := w.0, w.1;
    if err.Error? {
      return;
    }
    StackSetGrows(st.stack, st1.stack);
    SubsetNotLarger(reg.Keys - SetOf(st1.stack), reg.Keys - SetOf(st.stack));
    WalkDepsFacts(reg, env, root, override, st1, deps[1..]);
    var w2 := WalkDeps(reg, env, root, override, st1, deps[1..]);
    var err2, st2 := w2.0, w2.1;
    GrowsTrans(st, st1, st2);
    if err2.Nil? {
      DepsDone(st, st1, st2, deps);
    }
  }

  /** The diamond A -> [B, C], B -> [D], C -> [D]; no task has an executor. */
  const DiamondDefs: seq<TaskDef> := [TaskDef("A", "g", ["B", "C"], None, None, ""), TaskDef("B", "g", ["D"], None, None, ""),
                        TaskDef("C", "g", ["D"], None, None, ""), TaskDef("D", "g", [], None, None, "")]
  const DiamondReg: map<string, nat> := map["A" := 0, "B" := 1, "C" := 2, "D" := 3]

  /** Proof scaffolding, not a property: one step of `Walk`'s definition for a registered name not on the stack. */
  lemma WalkUnfold(reg: map<string, nat>, env: Env, root: nat, override: Option<Config>, st: RunState, name: string)
    requires Indexes(reg, st.defs) && name !in st.stack && name in reg
    ensures var w := WalkDeps(reg, env, root, override, st.(stack := st.stack + [name]), st.defs[reg[name]].deps);
      Walk(reg, env, root, override, st, name) == (if w.0.Error? then w else DoTask(env, root, override, w.1, name, reg[name]))
  {
  }

  /** Proof scaffolding, not a property: one step of `WalkDeps`'s definition for a non-empty list. */
  lemma WalkDepsUnfold(reg: map<string, nat>, env: Env, root: nat, override: Option<Config>, st: RunState, deps: seq<string>)
    requires Indexes(reg, st.defs) && deps != []
    ensures var w := Walk(reg, env, root, override, st, deps[0]);
      WalkDeps(reg, env, root, override, st, deps) == (if w.0.Error? then w else WalkDeps(reg, env, root, override, w.1, deps[1..]))
  {
  }

  /** Doing a task that has no executor only records it as done. */
  lemma DoTaskIdle(env: Env, root: nat, override: Option<Config>, st: RunState, name: string, id: nat)
    requires id < |st.defs| && st.defs[id].executor.None?
    ensures DoTask(env, root, override, st, name, id) == (Nil, st.(visited := st.visited + [name]))
  {
    DoTaskLifecycle(env, root, override, st, name, id);
  }

  /** Walking D under A and B succeeds, does D, and leaves D on the stack. */
  lemma DiamondD(st: RunState)
    requires st.stack == ["A", "B"] && st.defs == DiamondDefs
    ensures Walk(DiamondReg, map[], 0, None, st, "D") == (Nil, st.(stack := ["A", "B", "D"], visited := st.visited + ["D"]))
  {
    var st1 := st.(stack := st.stack + ["D"]);
    assert st1.stack == ["A", "B", "D"];
    assert DiamondReg["D"] == 3 && DiamondDefs[3].deps == [];
    WalkUnfold(DiamondReg, map[], 0, None, st, "D");
    assert WalkDeps(DiamondReg, map[], 0, None, st1, []) == (Nil, st1);
    DoTaskIdle(map[], 0, None, st1, "D", 3);
  }

  /** The dependencies of B, walked under A and B: D is done and stays on the stack. */
  lemma DiamondBDeps(st: RunState)
    requires st.stack == ["A", "B"] && st.defs == DiamondDefs
    ensures WalkDeps(DiamondReg, map[], 0, None, st, ["D"]) == (Nil, st.(stack := ["A", "B", "D"], visited := st.visited + ["D"]))
  {
    WalkDepsUnfold(DiamondReg, map[], 0, None, st, ["D"]);
    DiamondD(st);
    var st2 := st.(stack := ["A", "B", "D"], visited := st.visited + ["D"]);
    assert WalkDeps(DiamondReg, map[], 0, None, st2, []) == (Nil, st2);
  }

  /** Walking B under A succeeds, doing D and then B, and leaves D on the stack. */
  lemma DiamondB(st: RunState)
    requires st.stack == ["A"] && st.defs == DiamondDefs
    ensures Walk(DiamondReg, map[], 0, None, st, "B") == (Nil, st.(stack := ["A", "B", "D"], visited := st.visited + ["D", "B"]))
  {
    var st1 := st.(stack := st.stack + ["B"]);
    assert st1.stack == ["A", "B"];
    assert DiamondReg["B"] == 1 && DiamondDefs[1].deps == ["D"];
    WalkUnfold(DiamondReg, map[], 0, None, st, "B");
    DiamondBDeps(st1);
    var st2 := st1.(stack := ["A", "B", "D"], visited := st.visited + ["D"]);
    DoTaskIdle(map[], 0, None, st2, "B", 1);
    assert st2.visited + ["B"] == st.visited + ["D", "B"];
  }

  /** The dependencies of C, walked with D still on the stack: D is reported as a recursion. */
  lemma DiamondCDeps(st: RunState)
    requires st.stack == ["A", "B", "D", "C"] && st.defs == DiamondDefs
    ensures WalkDeps(DiamondReg, map[], 0, None, st, ["D"]).0 == Error(RecursionMessage("D", ["A", "B", "D", "C"]))
  {
    assert "D" in st.stack;
    WalkDepsUnfold(DiamondReg, map[], 0, None, st, ["D"]);
  }

  /** Walking C with D still on the stack reports D as a recursion. */
  lemma DiamondCFails(st: RunState)
    requires st.stack == ["A", "B", "D"] && st.defs == DiamondDefs
    ensures Walk(DiamondReg, map[], 0, None, st, "C").0 == Error(RecursionMessage("D", ["A", "B", "D", "C"]))
  {
    var st1 := st.(stack := st.stack + ["C"]);
    assert st1.stack == ["A", "B", "D", "C"];
    assert DiamondReg["C"] == 2 && DiamondDefs[2].deps == ["D"];
    WalkUnfold(DiamondReg, map[], 0, None, st, "C");
    DiamondCDeps(st1);
  }

  /**
   * As written, a task reached twice in one run is reported as a recursion
   * even when the graph has no cycle: in the diamond the second visit of D,
   * through C, finds D still on the stack.
   */
  lemma DiamondIsReportedAsRecursion()
    ensures Walk(DiamondReg, map[], 0, None, RunState([], DiamondDefs, [], []), "A").0 == Error(RecursionMessage("D", ["A", "B", "D", "C"]))
  {
    var st := RunState([], DiamondDefs, [], []);
    var sA := st.(stack := st.stack + ["A"]);
    assert sA.stack == ["A"];
    assert DiamondReg["A"] == 0 && DiamondDefs[0].deps == ["B", "C"];
    WalkUnfold(DiamondReg, map[], 0, None, st, "A");
    WalkDepsUnfold(DiamondReg, map[], 0, None, sA, ["B", "C"]);
    DiamondB(sA);
    var sB := sA.(stack := ["A", "B", "D"], visited := ["D", "B"]);
    WalkDepsUnfold(DiamondReg, map[], 0, None, sB, ["C"]);
    DiamondCFails(sB);
  }

  function ExistsMessage(key: string): string {
    "task name exist: " + key
  }

  function TooManyConfigsMessage(n: nat): string {
    "Run task only receive one config param. There are " + Decimal(n) + " config input."
  }

  /** The process-wide task registry: names to task indexes, and the tasks. */
  class Registry {
    var tasks: map<string, nat>
    var defs: seq<TaskDef>

    ghost predicate Valid()
      reads this
    {
      Indexes(tasks, defs)
    }

    constructor ()
      ensures Valid() && tasks == map[] && defs == []
    {
      tasks := map[];
      defs := [];
    }

    /**
     * `Task(name, args...)`: registers the task under `group.name`. It panics
     * on an empty name, on no arguments, on bad arguments and on a name
     * already registered, and then leaves the registry as it was.
     */
    method Task(name: string, args: seq<Arg>, callerGroup: string) returns (c: Completion)
      requires Valid()
      modifies this
      ensures Valid()
      ensures c.Panicked? ==> tasks == old(tasks) && defs == old(defs)
      ensures name == "" ==> c == Panicked(EmptyNameMessage)
      ensures name != "" && args == [] ==> c == Panicked(NoArgsMessage)
      ensures name != "" && args != [] && BadArgs(args) ==>
        exists i :: 0 <= i < |args| && !BadArgs(args[..i]) && BadArgAt(args, i) && c == Panicked(BadArgMessage(args, i))
      ensures name != "" && args != [] && !BadArgs(args) && QualifiedName(Parsed(name, args, callerGroup).group, name) in old(tasks) ==>
        c == Panicked(ExistsMessage(QualifiedName(Parsed(name, args, callerGroup).group, name)))
      ensures c.Completed? <==>
        name != "" && args != [] && !BadArgs(args) &&
        QualifiedName(Parsed(name, args, callerGroup).group, name) !in old(tasks)
      ensures c.Completed? ==>
        && defs == old(defs) + [Parsed(name, args, callerGroup)]
        && tasks == old(tasks)[QualifiedName(Parsed(name, args, callerGroup).group, name) := |old(defs)|]
    {
      if |name| == 0 {
        return Panicked(EmptyNameMessage);
      }
      if |args| == 0 {
        return Panicked(NoArgsMessage);
      }
      var o := ParseArgs(name, args, callerGroup);
      if o.Panic? {
        return Panicked(o.msg);
      }
      var t := o.value;
      var key := QualifiedName(t.group, name);
      if key in tasks {
        return Panicked(ExistsMessage(key));
      }
      tasks := tasks[key := |defs|];
      defs := defs + [t];
      return Completed;
    }

    /**
     * `setTaskToDefault`: every name starting with `group.` also becomes
     * reachable by the rest of the name. The keys visited are those present
     * when the loop starts.
     */
    method SetTaskToDefault(group: string)
      requires Valid()
      modifies this`tasks
      ensures Valid()
      ensures tasks == old(tasks) + Aliases(old(tasks), group + ".")
    {
      var p := group + ".";
      var snapshot := tasks;
      var t := tasks;
      var keys := tasks.Keys;
      ghost var done: set<string> := {};
      assert Restrict(snapshot, done) == map[];
      assert Aliases(map[], p) == map[];
      while keys != {}
        invariant keys <= snapshot.Keys && done == snapshot.Keys - keys
        invariant t == Promoted(snapshot, p, done)
        decreases keys
      {
        var k :| k in keys;
        PromoteStep(snapshot, p, done, k);
        if HasPrefix(k, p) {
          t := t[k[|p|..] := snapshot[k]];
        }
        keys := keys - {k};
        done := done + {k};
      }
      PromotedAll(snapshot, p, done);
      PromotionIndexes(snapshot, p, defs);
      tasks := t;
    }

    /** `UseTasks`: promotes the given groups, or the caller's group when none is given. */
    method UseTasks(groups: seq<string>, callerGroup: string)
      requires Valid()
      modifies this`tasks
      ensures Valid()
      ensures groups == [] ==> tasks == old(tasks) + Aliases(old(tasks), callerGroup + ".")
      ensures groups != [] ==> tasks == PromotedGroups(old(tasks), groups)
      ensures forall k :: k in old(tasks) ==> k in tasks
    {
      if |groups| == 0 {
        SetTaskToDefault(callerGroup);
      } else {
        var i := 0;
        while i < |groups|
          invariant 0 <= i <= |groups|
          invariant Valid()
          invariant tasks == PromotedGroups(old(tasks), groups[..i])
        {
          assert groups[..i + 1][..i] == groups[..i];
          SetTaskToDefault(groups[i]);
          i := i + 1;
        }
        assert groups[..i] == groups;
        PromotedGroupsKeepsNames(old(tasks), groups);
      }
    }

    /**
     * `RunTask`: rejects more than one override, an empty name and an
     * unknown name without walking; otherwise walks from a fresh stack and
     * keeps the executors' new configuration.
     */
    method RunTask(name: string, configs: seq<Config>, env: Env) returns (err: Status)
      requires Valid()
      modifies this`defs
      ensures Valid() && |defs| == |old(defs)|
      ensures |configs| > 1 ==> err == Error(TooManyConfigsMessage(|configs|)) && defs == old(defs)
      ensures |configs| <= 1 && name == "" ==> err == Error(EmptyNameMessage) && defs == old(defs)
      ensures |configs| <= 1 && name != "" && name !in tasks ==> err == Error(NotFoundMessage(name)) && defs == old(defs)
      ensures |configs| <= 1 && name != "" && name in tasks ==>
        var r := Walk(tasks, env, tasks[name], if |configs| == 1 then Some(configs[0]) else None,
                      RunState([], old(defs), [], []), name);
        err == r.0 && defs == r.1.defs
    {
      if |configs| > 1 {
        return Error(TooManyConfigsMessage(|configs|));
      }
      var conf := if |configs| == 1 then Some(configs[0]) else None;
      if |name| > 0 {
        if name !in tasks {
          return Error(NotFoundMessage(name));
        }
        var r := Walk(tasks, env, tasks[name], conf, RunState([], defs, [], []), name);
        defs := r.1.defs;
        return r.0;
      } else {
        return Error(EmptyNameMessage);
      }
    }
  }
}
