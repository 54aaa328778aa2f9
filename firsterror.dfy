/**
 * The loop the program writes in several places (the builds of the dist
 * task, `each` over the seeds, `Paths.Each`): call a function on each
 * element in order and return the first error.
 */
module FirstError {
  import opened Errors

  /** Calls `f` on each element in order and stops after the first call that fails; gives the elements `f` was called on and the error. */
  function Calls<T>(xs: seq<T>, f: T -> Status): (seq<T>, Status) {
    if xs == [] then ([], Nil)
    else if f(xs[0]).Error? then ([xs[0]], f(xs[0]))
    else
      var (rest, err) := Calls(xs[1..], f);
      ([xs[0]] + rest, err)
  }

  /**
   * The elements called are a prefix of `xs`; every call but a failing
   * last one succeeded; the result is nil exactly when every element was
   * called and every call succeeded, and otherwise it is the last call's
   * error.
   */
  lemma {:induction false} CallsFacts<T>(xs: seq<T>, f: T -> Status)
    ensures var (called, err) := Calls(xs, f);
      && |called| <= |xs| && called == xs[..|called|]
      && (err == Nil <==> called == xs && forall k :: 0 <= k < |xs| ==> f(xs[k]) == Nil)
      && (err.Error? ==>
            && |called| > 0 && err == f(called[|called| - 1])
            && forall k :: 0 <= k < |called| - 1 ==> f(called[k]) == Nil)
  {
    if xs != [] && f(xs[0]) == Nil {
      CallsFacts(xs[1..], f);
      var (rest, err) := Calls(xs[1..], f);
      assert Calls(xs, f) == ([xs[0]] + rest, err);
      assert xs == [xs[0]] + xs[1..];
      assert forall k :: 0 < k < |xs| ==> xs[k] == xs[1..][k - 1];
      if err.Error? {
        assert ([xs[0]] + rest)[|rest|] == rest[|rest| - 1];
      }
    }
  }

  /** Calls that succeed in front of a run do not change where it stops. */
  lemma {:induction false} CallsAfter<T>(before: seq<T>, after: seq<T>, f: T -> Status)
    requires forall k :: 0 <= k < |before| ==> f(before[k]) == Nil
    ensures Calls(before + after, f) == (before + Calls(after, f).0, Calls(after, f).1)
  {
    if before == [] {
      assert before + after == after;
      assert before + Calls(after, f).0 == Calls(after, f).0;
    } else {
      assert (before + after)[0] == before[0] && (before + after)[1..] == before[1..] + after;
      assert f(before[0]) == Nil;
      assert forall k :: 0 <= k < |before| - 1 ==> before[1..][k] == before[k + 1];
      CallsAfter(before[1..], after, f);
      var (r, e) := Calls(after, f);
      assert Calls(before + after, f) == ([before[0]] + (before[1..] + r), e);
      assert [before[0]] + (before[1..] + r) == before + r;
    }
  }
}
