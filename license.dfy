/**
 * The license task (tasks/license/license.go): `Validate` fills in the base
 * directory and the default patterns and selects the files; `Execute`
 * puts the license head in front of every selected file that does not
 * already start with it.
 */
module License {
  import opened Errors

  const DefaultPatterns: seq<string> := ["**/*.go"]
  const EmptyHeadMessage := "License head is empty."

  /** The head `init` registers the task with: the project's copyright lines and a blank line. */
  const DefaultHead: string :=
    "// Copyright (c) 2015, tbud. All rights reserved.\n"
    + "// Use of this source code is governed by a BSD-style\n"
    + "// license that can be found in the LICENSE file.\n"
    + "\n"

  /** The error `ioutil.ReadFile` gives for a missing file. */
  function ReadError(name: string): string {
    "open " + name + ": no such file or directory"
  }

  /** The error `os.OpenFile` gives for a file that cannot be opened for writing. */
  function OpenError(name: string): string {
    "open " + name + ": permission denied"
  }

  predicate HasPrefix(s: string, prefix: string) {
    |prefix| <= |s| && s[..|prefix|] == prefix
  }

  // ---------------------------------------------------------------- Execute

  /** The contents of the files after a run of the loop in `Execute`, and its result. */
  datatype Run = Run(contents: map<string, string>, err: Status)

  /**
   * The loop in `Execute` over `files`: a file that cannot be read, or that
   * lacks the head and cannot be opened for writing, stops the loop with
   * its error; a file without the head gets the head in front of it.
   */
  function Prepended(contents: map<string, string>, writable: set<string>, files: seq<string>, head: string): Run
    decreases |files|
  {
    if files == [] then Run(contents, Nil)
    else
      var f := files[0];
      if f !in contents then Run(contents, Error(ReadError(f)))
      else if HasPrefix(contents[f], head) then Prepended(contents, writable, files[1..], head)
      else if f !in writable then Run(contents, Error(OpenError(f)))
      else Prepended(contents[f := head + contents[f]], writable, files[1..], head)
  }

  /** The loop only rewrites files that lack the head, and only by putting the head in front; no file appears or vanishes. */
  lemma {:induction false} PrependedFacts(contents: map<string, string>, writable: set<string>, files: seq<string>, head: string)
    ensures var r := Prepended(contents, writable, files, head);
      && r.contents.Keys == contents.Keys
      && (forall g :: g in contents && HasPrefix(contents[g], head) ==> r.contents[g] == contents[g])
      && (forall g :: g in contents && g !in files ==> r.contents[g] == contents[g])
      && (forall g :: g in contents ==> r.contents[g] == contents[g] || r.contents[g] == head + contents[g])
    decreases |files|
  {
    if files != [] {
      var f := files[0];
      if f in contents && !HasPrefix(contents[f], head) && f in writable {
        var c := contents[f := head + contents[f]];
        PrependedFacts(c, writable, files[1..], head);
        assert HasPrefix(c[f], head);
        forall g | g in contents && g !in files
          ensures Prepended(contents, writable, files, head).contents[g] == contents[g]
        {
          assert g != f && g !in files[1..];
        }
      } else if f in contents && HasPrefix(contents[f], head) {
        PrependedFacts(contents, writable, files[1..], head);
        forall g | g in contents && g !in files
          ensures Prepended(contents, writable, files, head).contents[g] == contents[g]
        {
          assert g !in files[1..];
        }
      }
    }
  }

  /** A run that succeeds leaves every listed file starting with the head: unchanged if it had it, the head then the old contents if not. */
  lemma {:induction false} PrependedSucceeds(contents: map<string, string>, writable: set<string>, files: seq<string>, head: string)
    requires Prepended(contents, writable, files, head).err == Nil
    ensures var r := Prepended(contents, writable, files, head);
      forall g :: g in files ==>
        && g in contents
        && g in r.contents
        && r.contents[g] == (if HasPrefix(contents[g], head) then contents[g] else head + contents[g])
    decreases |files|
  {
    PrependedFacts(contents, writable, files, head);
    if files != [] {
      var f := files[0];
      var r := Prepended(contents, writable, files, head);
      if HasPrefix(contents[f], head) {
        PrependedSucceeds(contents, writable, files[1..], head);
        PrependedFacts(contents, writable, files[1..], head);
      } else {
        var c := contents[f := head + contents[f]];
        PrependedSucceeds(c, writable, files[1..], head);
        PrependedFacts(c, writable, files[1..], head);
        assert HasPrefix(c[f], head);
        forall g | g in files
          ensures r.contents[g] == (if HasPrefix(contents[g], head) then contents[g] else head + contents[g])
        {
          if g != f {
            assert g in files[1..];
            if HasPrefix(contents[g], head) {
              assert HasPrefix(c[g], head);
            } else {
              assert !HasPrefix(c[g], head);
            }
          }
        }
      }
    }
  }

  /** A failure stops the loop: the files after the failing one are not looked at. */
  lemma {:induction false} PrependedSplit(contents: map<string, string>, writable: set<string>, a: seq<string>, b: seq<string>, head: string)
    ensures var r := Prepended(contents, writable, a, head);
      Prepended(contents, writable, a + b, head) ==
        if r.err.Error? then r else Prepended(r.contents, writable, b, head)
    decreases |a|
  {
    if a != [] {
      assert (a + b)[0] == a[0] && (a + b)[1..] == a[1..] + b;
      var f := a[0];
      if f in contents && HasPrefix(contents[f], head) {
        PrependedSplit(contents, writable, a[1..], b, head);
      } else if f in contents && f in writable {
        PrependedSplit(contents[f := head + contents[f]], writable, a[1..], b, head);
      }
    } else {
      assert a + b == b;
    }
  }

  /** Running `Execute` a second time changes nothing and gives the same result. */
  lemma {:induction false} PrependedIdempotent(contents: map<string, string>, writable: set<string>, files: seq<string>, head: string)
    ensures var r := Prepended(contents, writable, files, head);
      Prepended(r.contents, writable, files, head) == r
    decreases |files|
  {
    if files != [] {
      var f := files[0];
      var r := Prepended(contents, writable, files, head);
      if f in contents && HasPrefix(contents[f], head) {
        PrependedIdempotent(contents, writable, files[1..], head);
        PrependedFacts(contents, writable, files[1..], head);
      } else if f in contents && f in writable {
        var c := contents[f := head + contents[f]];
        assert HasPrefix(c[f], head);
        PrependedIdempotent(c, writable, files[1..], head);
        PrependedFacts(c, writable, files[1..], head);
      }
    }
  }

  /** The file system `Execute` works on: the contents of each file, and the files that can be opened for writing. */
  class FileSystem {
    var contents: map<string, string>
    var writable: set<string>

    constructor (contents: map<string, string>, writable: set<string>)
      ensures this.contents == contents && this.writable == writable
    {
      this.contents := contents;
      this.writable := writable;
    }
  }

  // ---------------------------------------------------------------- Validate

  /** The fields of a `LicenseTask`. */
  datatype Fields = Fields(baseDir: string, patterns: seq<string>, licenseHead: string, files: seq<string>)

  /**
   * `Validate`: an empty base directory becomes the working directory
   * `getwd`; empty patterns become the default pattern, every Go file; an empty head is an
   * error; then the patterns are compiled (`compile` gives the error) and
   * the files under the base directory that match them are selected
   * (`matches`).
   */
  function Validated(f: Fields, getwd: Result<string>, compile: seq<string> -> Status,
                     matches: (seq<string>, string) -> Result<seq<string>>): (Fields, Status)
  {
    if f.baseDir == [] && getwd.Failed? then (f, Error(getwd.msg))
    else
      var dir := if f.baseDir == [] then getwd.value else f.baseDir;
      var pats := if f.patterns == [] then DefaultPatterns else f.patterns;
      var f1 := f.(baseDir := dir, patterns := pats);
      if f.licenseHead == [] then (f1, Error(EmptyHeadMessage))
      else if compile(pats).Error? then (f1, compile(pats))
      else
        match matches(pats, dir)
        case Failed(msg) => (f1.(files := []), Error(msg))
        case Ok(names) => (f1.(files := names), Nil)
  }

  /** What `Validate` promises: defaults are filled in, an empty head is refused, and success means a head, patterns, a base directory and the matched files. */
  lemma ValidatedFacts(f: Fields, getwd: Result<string>, compile: seq<string> -> Status,
                       matches: (seq<string>, string) -> Result<seq<string>>)
    ensures var (g, err) := Validated(f, getwd, compile, matches);
      && g.licenseHead == f.licenseHead
      && (f.baseDir == [] && getwd.Failed? ==> err == Error(getwd.msg) && g == f)
      && (!(f.baseDir == [] && getwd.Failed?) ==>
            && g.patterns == (if f.patterns == [] then DefaultPatterns else f.patterns)
            && g.baseDir == (if f.baseDir == [] then getwd.value else f.baseDir)
            && (f.licenseHead == [] ==> err == Error(EmptyHeadMessage)))
      && (err == Nil <==>
            && !(f.baseDir == [] && getwd.Failed?)
            && f.licenseHead != []
            && compile(g.patterns) == Nil
            && matches(g.patterns, g.baseDir).Ok?)
      && (err == Nil ==> g.patterns != [] && g.files == matches(g.patterns, g.baseDir).value)
  {
  }

  /** `LicenseTask`. */
  class LicenseTask {
    var baseDir: string
    var patterns: seq<string>
    var licenseHead: string
    var files: seq<string>

    function State(): Fields
      reads this
    {
      Fields(baseDir, patterns, licenseHead, files)
    }

    /** The task as `init` registers it: the default patterns and the copyright head. */
    constructor ()
      ensures State() == Fields([], DefaultPatterns, DefaultHead, [])
    {
      baseDir := [];
      patterns := DefaultPatterns;
      licenseHead := DefaultHead;
      files := [];
    }

    /** `Validate`, with the working directory, the pattern compiler and the matcher as parameters. */
    method Validate(getwd: Result<string>, compile: seq<string> -> Status,
                    matches: (seq<string>, string) -> Result<seq<string>>) returns (err: Status)
      modifies this
      ensures (State(), err) == Validated(old(State()), getwd, compile, matches)
    {
      if |baseDir| == 0 {
        match getwd {
          case Failed(msg) => return Error(msg);
          case Ok(dir) => baseDir := dir;
        }
      }
      if |patterns| == 0 {
        patterns := DefaultPatterns;
      }
      if |licenseHead| == 0 {
        return Error(EmptyHeadMessage);
      }
      err := compile(patterns);
      if err.Error? {
        return err;
      }
      match matches(patterns, baseDir) {
        case Failed(msg) =>
          files := [];
          return Error(msg);
        case Ok(names) =>
          files := names;
      }
      return Nil;
    }

    /** `Execute`: the loop over the selected files, on the file system `fs`. */
    method Execute(fs: FileSystem) returns (err: Status)
      modifies fs`contents
      ensures Run(fs.contents, err) == Prepended(old(fs.contents), fs.writable, files, licenseHead)
    {
      ghost var c0 := fs.contents;
      var i := 0;
      while i < |files|
        invariant 0 <= i <= |files|
        invariant Prepended(c0, fs.writable, files, licenseHead) == Prepended(fs.contents, fs.writable, files[i..], licenseHead)
      {
        var filename := files[i];
        assert files[i..][0] == filename && files[i..][1..] == files[i + 1..];
        if filename !in fs.contents {
          return Error(ReadError(filename));
        }
        var filebuf := fs.contents[filename];
        if !HasPrefix(filebuf, licenseHead) {
          if filename !in fs.writable {
            return Error(OpenError(filename));
          }
          fs.contents := fs.contents[filename := licenseHead + filebuf];
        }
        i := i + 1;
      }
      return Nil;
    }
  }
}
