/** `Paths.Each` (builtin/path.go): a function called on each path of a list, up to the first error. */
module Builtin {
  import opened Errors
  import opened FirstError

  /**
   * `Paths.Each`: a nil function visits nothing and succeeds; otherwise
   * `fun` is called on the paths in order up to the first error, which is
   * returned. Gives the paths it was called on and the error.
   */
  method Each(p: seq<string>, fun: Option<string -> Status>) returns (err: Status, called: seq<string>)
    ensures fun.None? ==> err == Nil && called == []
    ensures fun.Some? ==> (called, err) == Calls(p, fun.value)
  {
    called := [];
    if fun.Some? {
      var f := fun.value;
      var i := 0;
      while i < |p|
        invariant 0 <= i <= |p|
        invariant called == p[..i]
        invariant forall k :: 0 <= k < i ==> f(p[k]) == Nil
      {
        var path := p[i];
        called := called + [path];
        err := f(path);
        if err.Error? {
          CallsAfter(p[..i], p[i..], f);
          assert p[..i] + p[i..] == p;
          assert p[i..][0] == path;
          return err, called;
        }
        i := i + 1;
      }
      CallsAfter(p, [], f);
      assert p + [] == p;
    }
    return Nil, called;
  }
}
