/**
 * `stringList` (cmd/command.go): flattens arguments that are each a
 * string or a `[]string` into one `[]string`, panicking on any other
 * argument.
 */
module Command {
  import opened Errors

  const InvalidArgument := "stringList: invalid argument"

  /** An argument by its dynamic type: `[]string`, `string`, or anything else. */
  datatype Arg = Strings(values: seq<string>) | Str(value: string) | Other

  /** What an argument adds to the result. */
  function Contribution(a: Arg): seq<string>
    requires !a.Other?
  {
    match a
    case Strings(values) => values
    case Str(value) => [value]
  }

  predicate AllStrings(args: seq<Arg>) {
    forall k :: 0 <= k < |args| ==> !args[k].Other?
  }

  /** The contributions of the arguments, one after another. */
  function Concat(args: seq<Arg>): seq<string>
    requires AllStrings(args)
  {
    if args == [] then []
    else Concat(args[..|args| - 1]) + Contribution(args[|args| - 1])
  }

  /** The number of strings the arguments contribute. */
  function Count(args: seq<Arg>): nat {
    if args == [] then 0
    else
      Count(args[..|args| - 1]) +
        match args[|args| - 1]
        case Strings(values) => |values|
        case Str(_) => 1
        case Other => 0
  }

  /** What `stringList` gives: a panic if any argument is neither kind, the concatenation otherwise. */
  function Flatten(args: seq<Arg>): Outcome<seq<string>> {
    if AllStrings(args) then Return(Concat(args)) else Panic(InvalidArgument)
  }

  /** `stringList`: appends the contribution of each argument in turn, panicking at the first argument of another type. */
  method StringList(args: seq<Arg>) returns (r: Outcome<seq<string>>)
    ensures r == Flatten(args)
  {
    var x: seq<string> := [];
    var i := 0;
    while i < |args|
      invariant 0 <= i <= |args|
      invariant AllStrings(args[..i])
      invariant x == Concat(args[..i])
    {
      var arg := args[i];
      assert args[..i + 1][..i] == args[..i] && args[..i + 1][i] == arg;
      match arg {
        case Strings(values) => x := x + values;
        case Str(value) => x := x + [value];
        case Other => return Panic(InvalidArgument);
      }
      i := i + 1;
    }
    assert args[..i] == args;
    return Return(x);
  }

  /** No arguments give the empty list. */
  lemma FlattenEmpty()
    ensures Flatten([]) == Return([])
  {
  }

  /** The result panics exactly when some argument is neither a string nor a `[]string`. */
  lemma FlattenPanics(args: seq<Arg>)
    ensures Flatten(args).Panic? <==> exists k :: 0 <= k < |args| && args[k].Other?
    ensures Flatten(args).Panic? ==> Flatten(args).msg == InvalidArgument
  {
  }

  /** Flattening is concatenation: the result for `a + b` is the result for `a` followed by the result for `b`. */
  lemma {:induction false} ConcatAppend(a: seq<Arg>, b: seq<Arg>)
    requires AllStrings(a) && AllStrings(b)
    ensures AllStrings(a + b) && Concat(a + b) == Concat(a) + Concat(b)
    decreases |b|
  {
    assert AllStrings(a + b) by {
      forall k | 0 <= k < |a + b| ensures !(a + b)[k].Other? {
        if k >= |a| {
          assert (a + b)[k] == b[k - |a|];
        }
      }
    }
    if b == [] {
      assert a + b == a;
    } else {
      var b' := b[..|b| - 1];
      var last := b[|b| - 1];
      assert AllStrings(b');
      ConcatAppend(a, b');
      assert (a + b)[..|a + b| - 1] == a + b';
      assert (a + b)[|a + b| - 1] == last;
      calc {
        Concat(a + b);
        Concat(a + b') + Contribution(last);
        (Concat(a) + Concat(b')) + Contribution(last);
        Concat(a) + (Concat(b') + Contribution(last));
        Concat(a) + Concat(b);
      }
    }
  }

  /** A string contributes exactly itself; a `[]string` contributes all of its elements, in order. */
  lemma ConcatSingle(arg: Arg)
    requires !arg.Other?
    ensures arg.Str? ==> Concat([arg]) == [arg.value]
    ensures arg.Strings? ==> Concat([arg]) == arg.values
  {
    assert [arg][..0] == [];
  }

  /** The length of the result is the sum of the contributions. */
  lemma {:induction false} ConcatLength(args: seq<Arg>)
    requires AllStrings(args)
    ensures |Concat(args)| == Count(args)
  {
    if args != [] {
      ConcatLength(args[..|args| - 1]);
    }
  }
}
