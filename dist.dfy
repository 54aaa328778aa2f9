/**
 * The dist task (tasks/dist/dist.go): `Validate` checks the five settings
 * in order; `Execute` makes the two paths absolute, generates the Go
 * source of the script into `source.go` in the dist directory, then builds
 * one binary per (GOOS, GOARCH) pair, GOOS in the outer loop, stopping at
 * the first build that fails.
 */
module Dist {
  import opened Errors
  import opened FirstError
  import opened Seqs

  datatype DistTask = DistTask(
    distDir: string,
    binName: string,
    budScriptFile: string,
    gooss: seq<string>,
    goarchs: seq<string>,
    debug: bool)

  /** The task as `init` registers it. */
  const Default := DistTask("./budist", "budbin", "./build.bud", ["darwin", "linux"], ["amd64"], false)

  /** `Validate`: the error for the first empty setting, in declaration order. */
  function Validate(d: DistTask): (err: Status)
    ensures err == Nil <==>
      d.distDir != [] && d.binName != [] && d.budScriptFile != [] && d.gooss != [] && d.goarchs != []
    ensures d.distDir == [] ==> err == Error("dist dir is empty")
    ensures d.distDir != [] && d.binName == [] ==> err == Error("bin name is empty")
    ensures d.distDir != [] && d.binName != [] && d.budScriptFile == [] ==> err == Error("Bud script file name is empty")
    ensures d.distDir != [] && d.binName != [] && d.budScriptFile != [] && d.gooss == [] ==> err == Error("GOOSs is empty")
    ensures d.distDir != [] && d.binName != [] && d.budScriptFile != [] && d.gooss != [] && d.goarchs == [] ==> err == Error("GOARCHs is empty")
  {
    if |d.distDir| == 0 then Error("dist dir is empty")
    else if |d.binName| == 0 then Error("bin name is empty")
    else if |d.budScriptFile| == 0 then Error("Bud script file name is empty")
    else if |d.gooss| == 0 then Error("GOOSs is empty")
    else if |d.goarchs| == 0 then Error("GOARCHs is empty")
    else Nil
  }

  /** The default task passes `Validate`. */
  lemma DefaultIsValid()
    ensures Validate(Default) == Nil
  {
  }

  // ---------------------------------------------------------------- paths

  predicate IsAbs(p: string) {
    |p| > 0 && p[0] == '/'
  }

  /** `filepath.Abs` against the working directory `cwd`, whose error it passes on. */
  function Abs(p: string, cwd: Result<string>): (r: Result<string>)
    ensures IsAbs(p) ==> r == Ok(p)
    ensures r.Ok? && cwd.Ok? && IsAbs(cwd.value) ==> IsAbs(r.value)
    ensures !IsAbs(p) && cwd.Failed? ==> r == Failed(cwd.msg)
    ensures !IsAbs(p) && cwd.Ok? ==> r == Ok(Join(cwd.value, p))
  {
    if IsAbs(p) then Ok(p)
    else match cwd
      case Failed(msg) => Failed(msg)
      case Ok(dir) => Ok(dir + "/" + p)
  }

  function Join(a: string, b: string): string {
    a + "/" + b
  }

  /** The binary for one platform: `<goos>_<goarch>/<binName>` under the dist directory, with `.exe` for Windows. */
  function BinPath(distDir: string, goos: string, goarch: string, binName: string): string {
    var p := Join(Join(distDir, goos + "_" + goarch), binName);
    if goos == "windows" then p + ".exe" else p
  }

  /** The path lies in the platform's own directory under the dist directory and ends in `.exe` exactly for Windows. */
  lemma BinPathShape(distDir: string, goos: string, goarch: string, binName: string)
    ensures var p := BinPath(distDir, goos, goarch, binName);
      var dir := distDir + "/" + goos + "_" + goarch + "/";
      && |dir| <= |p| && p[..|dir|] == dir
      && (goos == "windows" ==> p == dir + binName + ".exe")
      && (goos != "windows" ==> p == dir + binName)
  {
    var dir := distDir + "/" + goos + "_" + goarch + "/";
    assert Join(Join(distDir, goos + "_" + goarch), binName) == dir + binName;
    assert (dir + binName)[..|dir|] == dir;
    assert (dir + binName + ".exe")[..|dir|] == dir;
  }

  // ---------------------------------------------------------------- builds

  /** One `go build -ldflags -w -o <output> <source>` run with `GOOS`, `GOARCH` and `CGO_ENABLED=1` set. */
  datatype Build = Build(output: string, source: string, goos: string, goarch: string)

  function BuildFor(distDir: string, goos: string, goarch: string, binName: string, source: string): Build {
    Build(BinPath(distDir, goos, goarch, binName), source, goos, goarch)
  }

  /** The builds of the inner loop for one GOOS. */
  function Row(distDir: string, goos: string, goarchs: seq<string>, binName: string, source: string): seq<Build> {
    if goarchs == [] then []
    else [BuildFor(distDir, goos, goarchs[0], binName, source)] + Row(distDir, goos, goarchs[1..], binName, source)
  }

  /** Every build of the two loops, GOOS outer. */
  function Plan(distDir: string, gooss: seq<string>, goarchs: seq<string>, binName: string, source: string): seq<Build> {
    if gooss == [] then []
    else Row(distDir, gooss[0], goarchs, binName, source) + Plan(distDir, gooss[1..], goarchs, binName, source)
  }

  lemma {:induction false} RowAt(distDir: string, goos: string, goarchs: seq<string>, binName: string, source: string)
    ensures var r := Row(distDir, goos, goarchs, binName, source);
      |r| == |goarchs| && forall j :: 0 <= j < |goarchs| ==> r[j] == BuildFor(distDir, goos, goarchs[j], binName, source)
  {
    if goarchs != [] {
      RowAt(distDir, goos, goarchs[1..], binName, source);
    }
  }

  /** GOOS is the outer loop: the plan is the plans of the earlier GOOSs, then this GOOS's row over every GOARCH, then the later ones. */
  lemma {:induction false} PlanSplit(distDir: string, gooss: seq<string>, goarchs: seq<string>, binName: string, source: string, i: int)
    requires 0 <= i < |gooss|
    ensures Plan(distDir, gooss, goarchs, binName, source) ==
      Plan(distDir, gooss[..i], goarchs, binName, source)
      + Row(distDir, gooss[i], goarchs, binName, source)
      + Plan(distDir, gooss[i + 1..], goarchs, binName, source)
  {
    if i == 0 {
      assert gooss[..0] == [] && gooss[1..] == gooss[i + 1..];
    } else {
      PlanSplit(distDir, gooss[1..], goarchs, binName, source, i - 1);
      assert gooss[..i][0] == gooss[0] && gooss[..i][1..] == gooss[1..][..i - 1];
      assert gooss[1..][i - 1] == gooss[i] && gooss[1..][i..] == gooss[i + 1..];
    }
  }

  lemma MulStep(i: int, n: int)
    ensures i * n == (i - 1) * n + n
  {
  }

  lemma {:induction false} PlanLength(distDir: string, gooss: seq<string>, goarchs: seq<string>, binName: string, source: string)
    ensures |Plan(distDir, gooss, goarchs, binName, source)| == |gooss| * |goarchs|
  {
    if gooss != [] {
      RowAt(distDir, gooss[0], goarchs, binName, source);
      PlanLength(distDir, gooss[1..], goarchs, binName, source);
      MulStep(|gooss|, |goarchs|);
    }
  }

  /**
   * `Execute` as a whole: both paths are made absolute, the script is
   * generated into `source.go`, and the builds of the plan run; it gives
   * the error and the builds started.
   */
  function Executed(d: DistTask, cwd: Result<string>, gen: (string, string, bool) -> Status,
                    build: Build -> Status): (Status, seq<Build>)
  {
    match Abs(d.distDir, cwd)
    case Failed(msg) => (Error(msg), [])
    case Ok(distDir) =>
      var source := Join(distDir, "source.go");
      match Abs(d.budScriptFile, cwd)
      case Failed(msg) => (Error(msg), [])
      case Ok(budFile) =>
        if gen(budFile, source, d.debug).Error? then (gen(budFile, source, d.debug), [])
        else
          var (started, err) := Calls(Plan(distDir, d.gooss, d.goarchs, d.binName, source), build);
          (err, started)
  }

  /**
   * A path that cannot be made absolute, or a failed generation, stops
   * `Execute` with that error before any build. Otherwise the builds run in
   * plan order: the result is nil exactly when every build of the plan ran
   * and succeeded, and otherwise it is the error of the last build started,
   * every earlier one having succeeded.
   */
  lemma ExecutedFacts(d: DistTask, cwd: Result<string>, gen: (string, string, bool) -> Status, build: Build -> Status)
    ensures var (err, started) := Executed(d, cwd, gen, build);
      && (Abs(d.distDir, cwd).Failed? ==> err == Error(Abs(d.distDir, cwd).msg) && started == [])
      && (Abs(d.distDir, cwd).Ok? && Abs(d.budScriptFile, cwd).Failed? ==>
            err == Error(Abs(d.budScriptFile, cwd).msg) && started == [])
      && (Abs(d.distDir, cwd).Ok? && Abs(d.budScriptFile, cwd).Ok? ==>
            var distDir := Abs(d.distDir, cwd).value;
            var source := Join(distDir, "source.go");
            var plan := Plan(distDir, d.gooss, d.goarchs, d.binName, source);
            var g := gen(Abs(d.budScriptFile, cwd).value, source, d.debug);
            && (g.Error? ==> err == g && started == [])
            && (g.Nil? ==>
                  && |started| <= |plan| && started == plan[..|started|]
                  && (err == Nil <==> started == plan && forall k :: 0 <= k < |plan| ==> build(plan[k]) == Nil)
                  && (err.Error? ==>
                        && |started| > 0 && err == build(started[|started| - 1])
                        && forall k :: 0 <= k < |started| - 1 ==> build(started[k]) == Nil)))
  {
    if Abs(d.distDir, cwd).Ok? && Abs(d.budScriptFile, cwd).Ok? {
      var distDir := Abs(d.distDir, cwd).value;
      CallsFacts(Plan(distDir, d.gooss, d.goarchs, d.binName, Join(distDir, "source.go")), build);
    }
  }

  /** `Execute`, with the working directory, the script generator and the build command as parameters. */
  method Execute(d: DistTask, cwd: Result<string>, gen: (string, string, bool) -> Status, build: Build -> Status)
    returns (err: Status, started: seq<Build>)
    ensures (err, started) == Executed(d, cwd, gen, build)
  {
    started := [];
    var distDir := d.distDir;
    if !IsAbs(distDir) {
      match cwd {
        case Failed(msg) => return Error(msg), [];
        case Ok(dir) => distDir := dir + "/" + distDir;
      }
    }
    var distSrcFile := Join(distDir, "source.go");
    var budFile := d.budScriptFile;
    if !IsAbs(budFile) {
      match cwd {
        case Failed(msg) => return Error(msg), [];
        case Ok(dir) => budFile := dir + "/" + budFile;
      }
    }
    err := gen(budFile, distSrcFile, d.debug);
    if err.Error? {
      return err, [];
    }
    err, started := BuildAll(distDir, distSrcFile, d.gooss, d.goarchs, d.binName, build);
  }

  /** The two loops of `Execute`: one build per (GOOS, GOARCH) pair, GOOS outer, up to the first failure. */
  method BuildAll(distDir: string, distSrcFile: string, gooss: seq<string>, goarchs: seq<string>,
                  bin: string, build: Build -> Status)
    returns (err: Status, started: seq<Build>)
    ensures (started, err) == Calls(Plan(distDir, gooss, goarchs, bin, distSrcFile), build)
  {
    started := [];
    ghost var plan := Plan(distDir, gooss, goarchs, bin, distSrcFile);
    ghost var todo := plan;
    var i := 0;
    while i < |gooss|
      invariant 0 <= i <= |gooss|
      invariant plan == started + todo
      invariant todo == Plan(distDir, gooss[i..], goarchs, bin, distSrcFile)
      invariant forall k :: 0 <= k < |started| ==> build(started[k]) == Nil
    {
      var goos := gooss[i];
      assert gooss[i..][0] == goos && gooss[i..][1..] == gooss[i + 1..];
      assert goarchs[0..] == goarchs;
      var j := 0;
      while j < |goarchs|
        invariant 0 <= j <= |goarchs|
        invariant plan == started + todo
        invariant todo == Row(distDir, goos, goarchs[j..], bin, distSrcFile)
                          + Plan(distDir, gooss[i + 1..], goarchs, bin, distSrcFile)
        invariant forall k :: 0 <= k < |started| ==> build(started[k]) == Nil
      {
        var goarch := goarchs[j];
        assert goarchs[j..][0] == goarch && goarchs[j..][1..] == goarchs[j + 1..];
        var binName := Join(Join(distDir, goos + "_" + goarch), bin);
        if goos == "windows" {
          binName := binName + ".exe";
        }
        var b := Build(binName, distSrcFile, goos, goarch);
        ghost var rest := Row(distDir, goos, goarchs[j + 1..], bin, distSrcFile)
                          + Plan(distDir, gooss[i + 1..], goarchs, bin, distSrcFile);
        assert Row(distDir, goos, goarchs[j..], bin, distSrcFile)
               == [b] + Row(distDir, goos, goarchs[j + 1..], bin, distSrcFile);
        Assoc([b], Row(distDir, goos, goarchs[j + 1..], bin, distSrcFile),
              Plan(distDir, gooss[i + 1..], goarchs, bin, distSrcFile));
        err := build(b);
        if err.Error? {
          CallsAfter(started, todo, build);
          started := started + [b];
          return err, started;
        }
        Assoc(started, [b], rest);
        started := started + [b];
        todo := rest;
        j := j + 1;
      }
      i := i + 1;
    }
    CallsAfter(started, [], build);
    assert started + [] == started;
    return Nil, started;
  }
}
