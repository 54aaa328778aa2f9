/**
 * The process exit bookkeeping of common/common.go: an exit status that
 * only ever rises, and the callbacks `Exit` runs, in registration order,
 * before the process exits with that status.
 */
module Common {
  import opened Errors

  /** The status after `SetExitStatus` is called with each of `ns` in turn, from `start`. */
  function StatusAfter(start: int, ns: seq<int>): int
    decreases |ns|
  {
    if ns == [] then start
    else StatusAfter(if start < ns[0] then ns[0] else start, ns[1..])
  }

  /** Setting statuses in turn leaves the largest of the start and all of them. */
  lemma {:induction false} StatusAfterIsMax(start: int, ns: seq<int>)
    ensures var r := StatusAfter(start, ns);
      && r >= start
      && (forall k :: 0 <= k < |ns| ==> r >= ns[k])
      && (r == start || exists k :: 0 <= k < |ns| && r == ns[k])
    decreases |ns|
  {
    if ns != [] {
      var next := if start < ns[0] then ns[0] else start;
      StatusAfterIsMax(next, ns[1..]);
      assert forall k :: 0 < k < |ns| ==> ns[k] == ns[1..][k - 1];
      var r := StatusAfter(start, ns);
      if r != start && r != next {
        var k :| 0 <= k < |ns[1..]| && r == ns[1..][k];
        assert r == ns[k + 1];
      }
    }
  }

  /** `PanicIfError`: nil passes, an error panics with it. */
  function PanicIfError(err: Status): (c: Completion)
    ensures c == Completed <==> err == Nil
    ensures err.Error? ==> c == Panicked(err.msg)
  {
    match err
    case Nil => Completed
    case Error(msg) => Panicked(msg)
  }

  /** The package state: `exitStatus` and `atexitFuncs`, the callbacks by an identifier each. */
  class ExitState {
    var exitStatus: int
    var atexitFuncs: seq<nat>

    /** The state at start-up: status 0 and no callbacks. */
    constructor ()
      ensures exitStatus == 0 && atexitFuncs == []
    {
      exitStatus := 0;
      atexitFuncs := [];
    }

    /** `SetExitStatus`: the status becomes the larger of itself and `n`. */
    method SetExitStatus(n: int)
      modifies this`exitStatus
      ensures exitStatus >= old(exitStatus) && exitStatus >= n
      ensures exitStatus == old(exitStatus) || exitStatus == n
      ensures exitStatus == StatusAfter(old(exitStatus), [n])
    {
      if exitStatus < n {
        exitStatus := n;
      }
    }

    /** `atexit`: the callback goes after the ones already registered. */
    method Atexit(f: nat)
      modifies this`atexitFuncs
      ensures atexitFuncs == old(atexitFuncs) + [f]
    {
      atexitFuncs := atexitFuncs + [f];
    }

    /** `Exit`: runs every callback in registration order, then exits with the status; gives the callbacks run and the exit code. */
    method Exit() returns (ran: seq<nat>, code: int)
      ensures ran == atexitFuncs && code == exitStatus
    {
      ran := [];
      var i := 0;
      while i < |atexitFuncs|
        invariant 0 <= i <= |atexitFuncs|
        invariant ran == atexitFuncs[..i]
      {
        ran := ran + [atexitFuncs[i]];
        i := i + 1;
      }
      assert atexitFuncs[..i] == atexitFuncs;
      code := exitStatus;
    }
  }
}
