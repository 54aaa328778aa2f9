/**
 * File watches (context/watch.go): registering a watch from its arguments,
 * the defaults it gets, the skip mask, the filtering of one event, the
 * debounce buffer and the dispatch of a batch to tasks and a callback.
 * The goroutines, locks, timers, fsnotify, `os.Stat` and the path selector
 * are outside the model: their results are parameters.
 */
module Watch {
  import opened Errors
  import opened Events
  import opened Fmt

  /** `func(events []Event) error`, given by the error it returns for a batch. */
  type Callback = seq<Event> -> Status

  /** One argument of `Watch` after the patterns. */
  datatype WatchArg =
    | FuncArg(fun: Callback)
    | TasksArg(names: seq<string>)
    | BaseDirArg(dir: string)
    | OpArg(op: Op)
    | UnknownArg

  const NoRelatedMessage := "watch must have related tasks or related function"
  const DefaultWaitMsec := 100

  function UnknownArgMessage(position: nat): string {
    "unknown args at arg[" + Decimal(position) + "]."
  }

  /** `SkipOp`: the bitwise OR of the given operations, 0 for none. */
  function OrAll(ops: seq<Op>): Op {
    if ops == [] then 0 else OrAll(ops[..|ops| - 1]) | ops[|ops| - 1]
  }

  method SkipOp(ops: seq<Op>) returns (ret: Op)
    ensures ret == OrAll(ops)
  {
    ret := 0;
    var i := 0;
    while i < |ops|
      invariant 0 <= i <= |ops|
      invariant ret == OrAll(ops[..i])
    {
      assert ops[..i + 1][..i] == ops[..i];
      ret := ret | ops[i];
      i := i + 1;
    }
    assert ops[..|ops|] == ops;
  }

  /** `event.Op & w.skipOp > 0`: the event shares a bit with the mask. */
  predicate Skipped(op: Op, mask: Op) {
    op & mask != 0
  }

  /**
   * The mask `SkipOp(ops...)` drops an event exactly when the event's
   * operation shares a bit with one of `ops`.
   */
  lemma AndDistributes(op: Op, a: Op, b: Op)
    ensures Skipped(op, a | b) <==> Skipped(op, a) || Skipped(op, b)
  {
    AndOverOr(op, a, b);
    OrNonZero(op & a, op & b);
  }

  lemma AndOverOr(op: Op, a: Op, b: Op)
    ensures op & (a | b) == (op & a) | (op & b)
  {
  }

  lemma OrNonZero(x: Op, y: Op)
    ensures (x | y != 0) <==> (x != 0 || y != 0)
  {
  }


  /** Some operation in `ops` shares a bit with `op`. */
  ghost predicate SharesBit(op: Op, ops: seq<Op>) {
    exists i :: 0 <= i < |ops| && Skipped(op, ops[i])
  }

  lemma SharesBitSnoc(op: Op, ops: seq<Op>)
    requires ops != []
    ensures SharesBit(op, ops) <==> SharesBit(op, ops[..|ops| - 1]) || Skipped(op, ops[|ops| - 1])
  {
    var init := ops[..|ops| - 1];
    if SharesBit(op, init) {
      var i :| 0 <= i < |init| && Skipped(op, init[i]);
      assert ops[i] == init[i];
    }
    if SharesBit(op, ops) {
      var i :| 0 <= i < |ops| && Skipped(op, ops[i]);
      if i < |init| {
        assert init[i] == ops[i];
      }
    }
  }

  /**
   * The mask `SkipOp(ops...)` drops an event exactly when the event's
   * operation shares a bit with one of `ops`.
   */
  lemma {:induction false} SkippedIffSharesBit(op: Op, ops: seq<Op>)
    ensures Skipped(op, OrAll(ops)) <==> SharesBit(op, ops)
    decreases |ops|
  {
    if ops != [] {
      var init, last := ops[..|ops| - 1], ops[|ops| - 1];
      var m := OrAll(init);
      assert OrAll(ops) == m | last;
      SkippedIffSharesBit(op, init);
      AndDistributes(op, m, last);
      SharesBitSnoc(op, ops);
    }
  }

  /** Under the default mask a write that also changed the mode is dropped; a plain write is not. */
  lemma DefaultMaskExamples()
    ensures Skipped(OpWrite | OpChmod, OpChmod)
    ensures Skipped(OpChmod, OpChmod)
    ensures !Skipped(OpWrite, OpChmod) && !Skipped(OpCreate | OpRemove | OpRename, OpChmod)
  {
  }

  /** The fields the argument loop of `Watch` sets. */
  datatype Settings = Settings(fun: Option<Callback>, tasks: seq<string>, baseDir: string, skipOp: Op)

  const NoSettings := Settings(None, [], "", 0)

  /** One argument sets the field of its type; a later argument of the same type replaces it. */
  function ApplyArg(s: Settings, a: WatchArg): Settings {
    match a
    case FuncArg(f) => s.(fun := Some(f))
    case TasksArg(names) => s.(tasks := names)
    case BaseDirArg(dir) => s.(baseDir := dir)
    case OpArg(op) => s.(skipOp := op)
    case UnknownArg => s
  }

  function ApplyArgs(s: Settings, args: seq<WatchArg>): Settings {
    if args == [] then s else ApplyArg(ApplyArgs(s, args[..|args| - 1]), args[|args| - 1])
  }

  /** `i` is the last position in `args` holding an argument of the kind `kind` tests. */
  ghost predicate LastOfKind(args: seq<WatchArg>, i: int, kind: WatchArg -> bool) {
    0 <= i < |args| && kind(args[i]) && forall j :: i < j < |args| ==> !kind(args[j])
  }

  /**
   * The last argument of each type wins, and a type that never occurs
   * leaves its field as it was.
   */
  lemma {:induction false} LastArgWins(s: Settings, args: seq<WatchArg>, i: int)
    ensures LastOfKind(args, i, (a: WatchArg) => a.TasksArg?) ==> ApplyArgs(s, args).tasks == args[i].names
    ensures LastOfKind(args, i, (a: WatchArg) => a.BaseDirArg?) ==> ApplyArgs(s, args).baseDir == args[i].dir
    ensures LastOfKind(args, i, (a: WatchArg) => a.OpArg?) ==> ApplyArgs(s, args).skipOp == args[i].op
    ensures LastOfKind(args, i, (a: WatchArg) => a.FuncArg?) ==> ApplyArgs(s, args).fun == Some(args[i].fun)
    ensures (forall j :: 0 <= j < |args| ==> !args[j].TasksArg?) ==> ApplyArgs(s, args).tasks == s.tasks
    ensures (forall j :: 0 <= j < |args| ==> !args[j].FuncArg?) ==> ApplyArgs(s, args).fun == s.fun
    ensures (forall j :: 0 <= j < |args| ==> !args[j].BaseDirArg?) ==> ApplyArgs(s, args).baseDir == s.baseDir
    ensures (forall j :: 0 <= j < |args| ==> !args[j].OpArg?) ==> ApplyArgs(s, args).skipOp == s.skipOp
    decreases |args|
  {
    if args != [] {
      var init := args[..|args| - 1];
      LastArgWins(s, init, i);
      forall j | 0 <= j < |init| ensures init[j] == args[j] { }
    }
  }

  /**
   * How one event was handled: dropped by the mask, stopped by a stat or
   * selector error, not matched, dispatched at once, or buffered (with a
   * flush scheduled when the buffer was empty).
   */
  datatype Handling =
    | SkippedEvent
    | StatError
    | MatchError
    | Unmatched
    | Immediate(ran: seq<string>, calledBack: bool)
    | Buffered(flushScheduled: bool)

  /** The result of `os.Stat` on the event's path. */
  datatype Stat = StatOk(isDir: bool) | StatFailed(msg: string, notExist: bool)

  /** The result of dispatching a batch: the error, the tasks run in order, and whether the callback ran. */
  datatype Dispatch = Dispatch(err: Status, ran: seq<string>, calledBack: bool)

  /**
   * `doTask`: runs the tasks in order, stopping at the first error, and
   * calls the callback with the batch only after every task succeeded.
   */
  function Dispatched(tasks: seq<string>, run: string -> Status, fun: Option<Callback>, batch: seq<Event>): Dispatch
    decreases |tasks|
  {
    if tasks == [] then
      if fun.Some? then Dispatch(fun.value(batch), [], true) else Dispatch(Nil, [], false)
    else
      var e := run(tasks[0]);
      if e.Error? then Dispatch(e, [tasks[0]], false)
      else Prefixed([tasks[0]], Dispatched(tasks[1..], run, fun, batch))
  }

  /** Every task in `tasks` succeeds. */
  ghost predicate AllRun(tasks: seq<string>, run: string -> Status) {
    forall i :: 0 <= i < |tasks| ==> run(tasks[i]).Nil?
  }

  /**
   * The dispatch runs a prefix of the tasks, all but the last of them
   * successfully; it stops early only at a failing task, whose error it
   * returns.
   */
  lemma {:induction false} DispatchRan(tasks: seq<string>, run: string -> Status, fun: Option<Callback>, batch: seq<Event>)
    ensures var d := Dispatched(tasks, run, fun, batch);
      && d.ran <= tasks
      && (d.ran != [] ==> AllRun(d.ran[..|d.ran| - 1], run))
      && (d.ran != tasks ==> d.ran != [] && run(d.ran[|d.ran| - 1]).Error? && d.err == run(d.ran[|d.ran| - 1]))
    decreases |tasks|
  {
    if tasks != [] && run(tasks[0]).Nil? {
      var rest := Dispatched(tasks[1..], run, fun, batch);
      DispatchRan(tasks[1..], run, fun, batch);
      var d := Dispatched(tasks, run, fun, batch);
      assert d.ran == [tasks[0]] + rest.ran;
      if rest.ran != [] {
        AllRunCons(d.ran[..|d.ran| - 1], run);
        assert d.ran[..|d.ran| - 1][1..] == rest.ran[..|rest.ran| - 1];
      }
    }
  }

  /**
   * The callback runs, with the batch, exactly when every task succeeded
   * and there is a callback; the dispatch succeeds exactly when every task
   * and the callback, if any, did.
   */
  lemma {:induction false} DispatchOutcome(tasks: seq<string>, run: string -> Status, fun: Option<Callback>, batch: seq<Event>)
    ensures var d := Dispatched(tasks, run, fun, batch);
      && (d.calledBack <==> AllRun(tasks, run) && fun.Some?)
      && (d.calledBack ==> d.err == fun.value(batch))
      && (d.err.Nil? <==> AllRun(tasks, run) && (fun.None? || fun.value(batch).Nil?))
    decreases |tasks|
  {
    if tasks != [] {
      AllRunCons(tasks, run);
      if run(tasks[0]).Nil? {
        DispatchOutcome(tasks[1..], run, fun, batch);
      }
    }
  }

  /** Every task of a non-empty list ran well exactly when the first did and all the others did. */
  lemma AllRunCons(tasks: seq<string>, run: string -> Status)
    requires tasks != []
    ensures AllRun(tasks, run) <==> run(tasks[0]).Nil? && AllRun(tasks[1..], run)
  {
    if run(tasks[0]).Nil? && AllRun(tasks[1..], run) {
      forall i | 0 < i < |tasks| ensures run(tasks[i]).Nil? {
        assert tasks[i] == tasks[1..][i - 1];
      }
    }
  }

  /** A registered watch. */
  class Watch {
    var baseDir: string
    var patterns: seq<string>
    var tasks: seq<string>
    var fun: Option<Callback>
    var skipOp: Op
    var waitMsec: int
    var mergeEvent: bool
    var events: seq<Event>

    /** `&watch{waitMsec: 100, mergeEvent: true}`. */
    constructor ()
      ensures waitMsec == DefaultWaitMsec && mergeEvent
      ensures baseDir == "" && patterns == [] && tasks == [] && fun == None && skipOp == 0 && events == []
    {
      baseDir := "";
      patterns := [];
      tasks := [];
      fun := None;
      skipOp := 0;
      waitMsec := DefaultWaitMsec;
      mergeEvent := true;
      events := [];
    }

    function CurrentSettings(): Settings
      reads this
    {
      Settings(fun, tasks, baseDir, skipOp)
    }

    /** One step of the argument loop of `Watch`. */
    method SetArg(a: WatchArg)
      requires !a.UnknownArg?
      modifies this
      ensures CurrentSettings() == ApplyArg(old(CurrentSettings()), a)
      ensures patterns == old(patterns) && waitMsec == old(waitMsec) && mergeEvent == old(mergeEvent) && events == old(events)
    {
      match a
      case FuncArg(f) => fun := Some(f);
      case TasksArg(names) => tasks := names;
      case BaseDirArg(dir) => baseDir := dir;
      case OpArg(op) => skipOp := op;
    }

    /**
     * `initWatcher`: fills in the base directory "." and the mask `Chmod`
     * when they are unset, then reports a pattern or watcher error.
     */
    method InitWatcher(ps: seq<string>, patternErr: Status, watcherErr: Status) returns (err: Status)
      modifies this
      ensures baseDir == (if old(baseDir) == "" then "." else old(baseDir))
      ensures skipOp == (if old(skipOp) == 0 then OpChmod else old(skipOp))
      ensures patternErr.Error? ==> err == Error("parse pattern err: " + patternErr.msg)
      ensures patternErr.Nil? ==> err == watcherErr
      ensures patterns == ps
      ensures tasks == old(tasks) && fun == old(fun) && waitMsec == old(waitMsec)
      ensures mergeEvent == old(mergeEvent) && events == old(events)
    {
      if |baseDir| == 0 {
        baseDir := ".";
      }
      if skipOp == 0 {
        skipOp := SkipOp([OpChmod]);
        assert [OpChmod][..0] == [];
      }
      patterns := ps;
      if patternErr.Error? {
        return Error("parse pattern err: " + patternErr.msg);
      }
      return watcherErr;
    }

    /** `doTask`: dispatches a batch; nothing of the watch changes. */
    method DoTask(batch: seq<Event>, run: string -> Status) returns (d: Dispatch)
      ensures d == Dispatched(tasks, run, fun, batch)
    {
      var i := 0;
      while i < |tasks|
        invariant 0 <= i <= |tasks|
        invariant forall j :: 0 <= j < i ==> run(tasks[j]).Nil?
        invariant Dispatched(tasks, run, fun, batch) == Prefixed(tasks[..i], Dispatched(tasks[i..], run, fun, batch))
      {
        var e := run(tasks[i]);
        if e.Error? {
          DispatchStops(tasks, run, fun, batch, i);
          return Dispatch(e, tasks[..i + 1], false);
        }
        DispatchSteps(tasks, run, fun, batch, i);
        i := i + 1;
      }
      assert tasks[..|tasks|] == tasks;
      if fun.Some? {
        d := Dispatch(fun.value(batch), tasks, true);
      } else {
        d := Dispatch(Nil, tasks, false);
      }
    }

    /**
     * `delayDoTask`: with merging on, an event for a path already buffered
     * ORs its operation into that entry; otherwise it is appended. A flush
     * is scheduled only when the buffer was empty.
     */
    method DelayDoTask(e: Event) returns (flushScheduled: bool)
      modifies this`events
      ensures flushScheduled <==> old(events) == []
      ensures events == Merged(old(events), e, mergeEvent)
    {
      var buf := events;
      flushScheduled := |buf| == 0;
      var found := None;
      if mergeEvent {
        found := FindName(buf, e.name);
      }
      if found.Some? {
        var i := found.value;
        events := buf[i := OrInto(buf[i], e.op)];
      } else {
        events := buf + [e];
      }
    }

    /** The deferred flush: takes the whole buffer and leaves it empty. */
    method Flush() returns (batch: seq<Event>)
      modifies this`events
      ensures batch == old(events) && events == []
    {
      batch := events;
      events := [];
    }

    /**
     * `event`: drop the event when it shares a bit with the mask; stop on a
     * stat error, except the one a removed path gives; stop on a selector
     * error; ignore an unmatched path; then dispatch at once when the wait
     * is 0, or buffer it.
     */
    method OnEvent(e: Event, stat: Stat, matched: Result<bool>, run: string -> Status) returns (err: Status, h: Handling)
      modifies this`events
      ensures Skipped(e.op, skipOp) ==> err == Nil && h == SkippedEvent
      ensures h.SkippedEvent? <==> Skipped(e.op, skipOp)
      ensures !Skipped(e.op, skipOp) && stat.StatFailed? && !(IsRemove(e.op) && stat.notExist) ==>
        h == StatError && err == Error(stat.msg)
      ensures h.StatError? || h.MatchError? ==> err.Error?
      ensures h == Unmatched ==> matched == Ok(false) && err == Nil
      ensures !Skipped(e.op, skipOp) && (stat.StatOk? || (IsRemove(e.op) && stat.notExist)) && matched.Failed? ==>
        h == MatchError && err == Error(matched.msg) && events == old(events)
      ensures !Skipped(e.op, skipOp) && (stat.StatOk? || (IsRemove(e.op) && stat.notExist)) && matched == Ok(false) ==>
        h == Unmatched && err == Nil && events == old(events)
      ensures h.Immediate? ==>
        var d := Dispatched(tasks, run, fun, [e]);
        waitMsec == 0 && err == d.err && h.ran == d.ran && h.calledBack == d.calledBack
      ensures h.Buffered? ==>
        waitMsec != 0 && err == Nil && events == Merged(old(events), e, mergeEvent) && (h.flushScheduled <==> old(events) == [])
      ensures !h.Buffered? ==> events == old(events)
      ensures !Skipped(e.op, skipOp) && (stat.StatOk? || (IsRemove(e.op) && stat.notExist)) && matched == Ok(true) ==>
        (if waitMsec == 0 then h.Immediate? else h.Buffered?)
    {
      if Skipped(e.op, skipOp) {
        return Nil, SkippedEvent;
      }
      if stat.StatFailed? && !(IsRemove(e.op) && stat.notExist) {
        return Error(stat.msg), StatError;
      }
      if matched.Failed? {
        return Error(matched.msg), MatchError;
      }
      if !matched.value {
        return Nil, Unmatched;
      }
      if waitMsec == 0 {
        var d := DoTask([e], run);
        return d.err, Immediate(d.ran, d.calledBack);
      }
      var scheduled := DelayDoTask(e);
      return Nil, Buffered(scheduled);
    }
  }

  /** `prefix` run successfully before the dispatch `d` of the rest. */
  function Prefixed(prefix: seq<string>, d: Dispatch): Dispatch {
    Dispatch(d.err, prefix + d.ran, d.calledBack)
  }

  lemma DispatchSteps(tasks: seq<string>, run: string -> Status, fun: Option<Callback>, batch: seq<Event>, i: nat)
    requires i < |tasks| && run(tasks[i]).Nil?
    ensures Prefixed(tasks[..i], Dispatched(tasks[i..], run, fun, batch))
         == Prefixed(tasks[..i + 1], Dispatched(tasks[i + 1..], run, fun, batch))
  {
    assert tasks[i..][1..] == tasks[i + 1..];
    assert tasks[..i] + [tasks[i]] == tasks[..i + 1];
  }

  lemma DispatchStops(tasks: seq<string>, run: string -> Status, fun: Option<Callback>, batch: seq<Event>, i: nat)
    requires i < |tasks| && run(tasks[i]).Error?
    ensures Prefixed(tasks[..i], Dispatched(tasks[i..], run, fun, batch)) == Dispatch(run(tasks[i]), tasks[..i + 1], false)
  {
    assert tasks[..i] + [tasks[i]] == tasks[..i + 1];
  }

  /** The loop of `delayDoTask` that looks for a buffered event with the same path. */
  method FindName(buf: seq<Event>, name: string) returns (r: Option<nat>)
    ensures r == FirstIndex(buf, name)
  {
    var i := 0;
    while i < |buf|
      invariant 0 <= i <= |buf|
      invariant forall j :: 0 <= j < i ==> buf[j].name != name
    {
      if buf[i].name == name {
        FirstIndexIs(buf, name, i);
        return Some(i);
      }
      i := i + 1;
    }
    NoIndex(buf, name);
    return None;
  }

  /** The position of the first buffered event for `name`, if any. */
  function FirstIndex(buf: seq<Event>, name: string): (r: Option<nat>)
    ensures r.Some? ==> r.value < |buf| && buf[r.value].name == name && forall j :: 0 <= j < r.value ==> buf[j].name != name
    ensures r.None? ==> forall j :: 0 <= j < |buf| ==> buf[j].name != name
  {
    if buf == [] then None
    else if buf[0].name == name then Some(0)
    else match FirstIndex(buf[1..], name)
      case None => None
      case Some(i) => Some(i + 1)
  }

  lemma FirstIndexIs(buf: seq<Event>, name: string, i: nat)
    requires i < |buf| && buf[i].name == name && forall j :: 0 <= j < i ==> buf[j].name != name
    ensures FirstIndex(buf, name) == Some(i)
  {
  }

  lemma NoIndex(buf: seq<Event>, name: string)
    requires forall j :: 0 <= j < |buf| ==> buf[j].name != name
    ensures FirstIndex(buf, name) == None
  {
  }

  /** A buffered event with the bits of `op` added to its operation. */
  function OrInto(x: Event, op: Op): Event {
    x.(op := x.op | op)
  }

  /** The buffer after `delayDoTask(e)`. */
  function Merged(buf: seq<Event>, e: Event, merge: bool): seq<Event> {
    if merge && FirstIndex(buf, e.name).Some? then
      var i := FirstIndex(buf, e.name).value;
      buf[i := OrInto(buf[i], e.op)]
    else
      buf + [e]
  }

  ghost predicate DistinctNames(buf: seq<Event>) {
    forall i, j :: 0 <= i < j < |buf| ==> buf[i].name != buf[j].name
  }

  /** Every bit of `y` is set in `x`. */
  predicate HasBits(x: Op, y: Op) {
    x & y == y
  }

  lemma OrHasBits(x: Op, y: Op)
    ensures HasBits(x | y, x) && HasBits(x | y, y) && HasBits(x, x)
  {
  }

  lemma MergeExisting(buf: seq<Event>, e: Event, k: nat)
    requires DistinctNames(buf) && k < |buf| && buf[k].name == e.name
    ensures var r := buf[k := OrInto(buf[k], e.op)];
      && DistinctNames(r) && |r| == |buf|
      && r[k].name == e.name && HasBits(r[k].op, e.op)
      && (forall i :: 0 <= i < |buf| && buf[i].name != e.name ==> r[i] == buf[i])
      && (forall i :: 0 <= i < |buf| ==> r[i].name == buf[i].name && HasBits(r[i].op, buf[i].op))
  {
    var r := buf[k := OrInto(buf[k], e.op)];
    OrHasBits(buf[k].op, e.op);
    forall i | 0 <= i < |buf| ensures r[i].name == buf[i].name && HasBits(r[i].op, buf[i].op) {
      if i != k {
        OrHasBits(buf[i].op, buf[i].op);
      }
    }
  }

  lemma MergeNew(buf: seq<Event>, e: Event)
    requires DistinctNames(buf) && forall i :: 0 <= i < |buf| ==> buf[i].name != e.name
    ensures var r := buf + [e];
      && DistinctNames(r) && r[|buf|].name == e.name && HasBits(r[|buf|].op, e.op)
      && (forall i :: 0 <= i < |buf| ==> r[i] == buf[i] && HasBits(r[i].op, buf[i].op))
  {
    var r := buf + [e];
    OrHasBits(e.op, e.op);
    forall i | 0 <= i < |buf| ensures r[i] == buf[i] && HasBits(r[i].op, buf[i].op) {
      OrHasBits(buf[i].op, buf[i].op);
    }
  }

  /**
   * With merging on, the buffer holds each path at most once; the event's
   * path is in the buffer afterwards with every bit of its operation; the
   * buffer grows only for a new path; the other entries are unchanged.
   */
  lemma MergeFacts(buf: seq<Event>, e: Event)
    requires DistinctNames(buf)
    ensures var r := Merged(buf, e, true);
      && DistinctNames(r)
      && (exists i :: 0 <= i < |r| && r[i].name == e.name && HasBits(r[i].op, e.op))
      && (|r| == |buf| <==> exists i :: 0 <= i < |buf| && buf[i].name == e.name)
      && (|r| == |buf| + 1 <==> forall i :: 0 <= i < |buf| ==> buf[i].name != e.name)
      && (forall i :: 0 <= i < |buf| && buf[i].name != e.name ==> r[i] == buf[i])
      && (forall i :: 0 <= i < |buf| ==> r[i].name == buf[i].name && HasBits(r[i].op, buf[i].op))
  {
    match FirstIndex(buf, e.name)
    case Some(k) =>
      MergeExisting(buf, e, k);
    case None =>
      MergeNew(buf, e);
  }

  /** Without merging every event is appended. */
  lemma NoMergeAppends(buf: seq<Event>, e: Event)
    ensures Merged(buf, e, false) == buf + [e]
  {
  }

  /** The registered watches, `_watchs`. */
  class WatchList {
    var watches: seq<Watch>

    constructor ()
      ensures watches == []
    {
      watches := [];
    }

    /**
     * `Watch(patterns, args...)`: empty patterns register nothing; otherwise
     * it panics on no arguments, on an argument of unknown type, on neither
     * tasks nor callback, and on a pattern or watcher error; on success it
     * appends one watch with the arguments and the defaults.
     */
    method Watch(ps: seq<string>, args: seq<WatchArg>, patternErr: Status, watcherErr: Status) returns (c: Completion, w: Watch?)
      modifies this
      ensures ps == [] ==> c == Completed && w == null && watches == old(watches)
      ensures c.Panicked? ==> watches == old(watches) && w == null
      ensures ps != [] && args == [] ==> c == Panicked(NoRelatedMessage)
      ensures ps != [] && (exists i :: 0 <= i < |args| && args[i].UnknownArg?) ==> c.Panicked?
      ensures forall i :: ps != [] && 0 <= i < |args| && args[i].UnknownArg? && (forall j :: 0 <= j < i ==> !args[j].UnknownArg?) ==>
              c == Panicked(UnknownArgMessage(i + 1))
      ensures ps != [] && (forall i :: 0 <= i < |args| ==> !args[i].UnknownArg?) &&
              (ApplyArgs(NoSettings, args).tasks != [] || ApplyArgs(NoSettings, args).fun.Some?) ==>
              c == (if patternErr.Error? then Panicked("parse pattern err: " + patternErr.msg)
                    else if watcherErr.Error? then Panicked(watcherErr.msg) else Completed)
      ensures ps != [] && (forall i :: 0 <= i < |args| ==> !args[i].UnknownArg?) &&
              ApplyArgs(NoSettings, args).tasks == [] && ApplyArgs(NoSettings, args).fun.None? ==>
              c == Panicked(NoRelatedMessage)
      ensures c.Completed? && ps != [] ==>
        && w != null && fresh(w) && watches == old(watches) + [w]
        && (forall i :: 0 <= i < |args| ==> !args[i].UnknownArg?)
        && patternErr.Nil? && watcherErr.Nil?
        && var s := ApplyArgs(NoSettings, args);
        && (s.tasks != [] || s.fun.Some?)
        && w.tasks == s.tasks && w.fun == s.fun && w.patterns == ps
        && w.baseDir == (if s.baseDir == "" then "." else s.baseDir)
        && w.skipOp == (if s.skipOp == 0 then OpChmod else s.skipOp)
        && w.waitMsec == DefaultWaitMsec && w.mergeEvent && w.events == []
    {
      if |ps| == 0 {
        return Completed, null;
      }
      if |args| == 0 {
        return Panicked(NoRelatedMessage), null;
      }
      var nw := new Watch();
      var i := 0;
      while i < |args|
        invariant 0 <= i <= |args|
        invariant forall j :: 0 <= j < i ==> !args[j].UnknownArg?
        invariant nw.CurrentSettings() == ApplyArgs(NoSettings, args[..i])
        invariant nw.waitMsec == DefaultWaitMsec && nw.mergeEvent && nw.events == [] && nw.patterns == []
        invariant fresh(nw) && watches == old(watches)
      {
        if args[i].UnknownArg? {
          return Panicked(UnknownArgMessage(i + 1)), null;
        }
        nw.SetArg(args[i]);
        assert args[..i + 1][..i] == args[..i];
        i := i + 1;
      }
      assert args[..|args|] == args;
      if |nw.tasks| == 0 && nw.fun.None? {
        return Panicked(NoRelatedMessage), null;
      }
      var err := nw.InitWatcher(ps, patternErr, watcherErr);
      if err.Error? {
        return Panicked(err.msg), null;
      }
      watches := watches + [nw];
      return Completed, nw;
    }
  }
}
