/**
 * The seed registry (seed/seed.go): project seeds registered by name,
 * kept both as a list in registration order and as a map from name to
 * position in that list; `getSeed` looks a name up, `each` calls a
 * function on every seed up to the first error, and `selectSeed` reads
 * names until one picks a seed, a blank line picking the first seed.
 */
module Seed {
  import opened Errors
  import opened FirstError

  /** A seed, by what the registry and the selection prompt ask of it: its name and description. */
  datatype Seed = Seed(name: string, description: string)

  const NilSeedMessage := "bud: Register seed is nil"

  /** The runtime panic of `_seeds[0]` on an empty list. */
  const IndexOutOfRange := "runtime error: index out of range [0] with length 0"

  const DuplicatePrefix := "Already has a seed named '"

  /** The duplicate-name panic as written: the verb `%d` applied to the name, which `fmt` renders as `%!d(string=...)`. */
  function DuplicateMessageAsWritten(name: string): string {
    DuplicatePrefix + "%!d(string=" + name + ")'"
  }

  /** The duplicate-name panic as evidently intended: the name between quotes. */
  function DuplicateMessage(name: string): string {
    DuplicatePrefix + name + "'"
  }

  /** The intended message quotes exactly the name. */
  lemma DuplicateMessageQuotesName(name: string)
    ensures var msg := DuplicateMessage(name);
      && |msg| == |DuplicatePrefix| + |name| + 1
      && msg[..|DuplicatePrefix|] == DuplicatePrefix
      && msg[|DuplicatePrefix|..|msg| - 1] == name
      && msg[|msg| - 1] == '\''
  {
    var msg := DuplicateMessage(name);
    assert msg == DuplicatePrefix + (name + "'");
    assert (name + "'")[..|name|] == name;
  }

  /** The message as written never quotes the name: what stands between the quotes is twelve characters longer. */
  lemma DuplicateMessageAsWrittenGarbles(name: string)
    ensures var msg := DuplicateMessageAsWritten(name);
      && msg[..|DuplicatePrefix|] == DuplicatePrefix
      && msg[|DuplicatePrefix|..|msg| - 1] != name
      && |msg[|DuplicatePrefix|..|msg| - 1]| == |name| + 12
      && msg != DuplicateMessage(name)
  {
    var msg := DuplicateMessageAsWritten(name);
    assert msg == DuplicatePrefix + ("%!d(string=" + name + ")'");
  }

  /** The list and the map agree: each name maps to the position of the seed with that name, and there are as many names as seeds. */
  ghost predicate Agree(seeds: seq<Seed>, names: map<string, int>) {
    && |names| == |seeds|
    && (forall n :: n in names ==> 0 <= names[n] < |seeds| && seeds[names[n]].name == n)
    && (forall i :: 0 <= i < |seeds| ==> seeds[i].name in names && names[seeds[i].name] == i)
  }

  /** Appending a seed with a new name at the next position keeps the list and the map in agreement. */
  lemma AppendKeepsAgreement(seeds: seq<Seed>, names: map<string, int>, s: Seed)
    requires Agree(seeds, names) && s.name !in names
    ensures Agree(seeds + [s], names[s.name := |seeds|])
    ensures forall i :: 0 <= i < |seeds| ==> seeds[i].name != s.name
  {
    var seeds' := seeds + [s];
    var names' := names[s.name := |seeds|];
    assert |names'| == |names| + 1;
    forall n | n in names' ensures 0 <= names'[n] < |seeds'| && seeds'[names'[n]].name == n {
      if n != s.name {
        assert seeds'[names[n]] == seeds[names[n]];
      }
    }
  }

  /** `_seeds` and `_seedNames`. */
  class SeedRegistry {
    var seeds: seq<Seed>
    var seedNames: map<string, int>

    ghost predicate Valid()
      reads this
    {
      Agree(seeds, seedNames)
    }

    /** The empty registry the package starts with. */
    constructor ()
      ensures Valid() && seeds == [] && seedNames == map[]
    {
      seeds := [];
      seedNames := map[];
    }

    /**
     * `Register`: a nil seed panics; a name already registered panics with
     * the `%d` message as written and changes nothing; otherwise the seed
     * goes at the end of the list and its name maps to that position.
     */
    method Register(seed: Option<Seed>) returns (c: Completion)
      requires Valid()
      modifies this
      ensures Valid()
      ensures seed.None? ==> c == Panicked(NilSeedMessage) && seeds == old(seeds) && seedNames == old(seedNames)
      ensures seed.Some? && seed.value.name in old(seedNames) ==>
        c == Panicked(DuplicateMessageAsWritten(seed.value.name)) && seeds == old(seeds) && seedNames == old(seedNames)
      ensures seed.Some? && seed.value.name !in old(seedNames) ==>
        && c == Completed
        && seeds == old(seeds) + [seed.value]
        && seedNames == old(seedNames)[seed.value.name := |old(seeds)|]
        && GetSeed(seed.value.name) == Some(seed.value)
    {
      if seed.None? {
        return Panicked(NilSeedMessage);
      }
      var s := seed.value;
      if s.name in seedNames {
        return Panicked(DuplicateMessageAsWritten(s.name));
      }
      AppendKeepsAgreement(seeds, seedNames, s);
      seedNames := seedNames[s.name := |seeds|];
      seeds := seeds + [s];
      return Completed;
    }

    /** `getSeed`: the seed registered under `name`, or nil. */
    function GetSeed(name: string): (r: Option<Seed>)
      reads this
      requires Valid()
      ensures r.Some? <==> exists i :: 0 <= i < |seeds| && seeds[i].name == name
      ensures r.Some? ==> r.value.name == name && r.value in seeds
    {
      if name in seedNames then Some(seeds[seedNames[name]]) else None
    }

    /** `each`: calls `fun` on the seeds in registration order up to the first error; gives the seeds it was called on and the error. */
    method Each(fun: Seed -> Status) returns (err: Status, called: seq<Seed>)
      ensures (called, err) == Calls(seeds, fun)
    {
      called := [];
      var i := 0;
      while i < |seeds|
        invariant 0 <= i <= |seeds|
        invariant called == seeds[..i]
        invariant forall k :: 0 <= k < i ==> fun(seeds[k]) == Nil
      {
        var seed := seeds[i];
        called := called + [seed];
        err := fun(seed);
        if err.Error? {
          CallsAfter(seeds[..i], seeds[i..], fun);
          assert seeds[..i] + seeds[i..] == seeds;
          assert seeds[i..][0] == seed;
          return err, called;
        }
        i := i + 1;
      }
      CallsAfter(seeds, [], fun);
      assert seeds + [] == seeds;
      return Nil, called;
    }

    /** A line picks a seed when it is blank (the first seed) or a registered name. */
    predicate Picks(line: string)
      reads this
    {
      |line| == 0 || line in seedNames
    }

    /** The seed selected by the first line that picks one; nil when none does. */
    function Selection(lines: seq<string>): Option<Seed>
      reads this
      requires Valid() && |seeds| > 0
      decreases |lines|
    {
      if lines == [] then None
      else
        var picked := if |lines[0]| == 0 then Some(seeds[0]) else GetSeed(lines[0]);
        if picked.Some? then picked else Selection(lines[1..])
    }

    /**
     * `selectSeed` over the lines the user types: the seed list is shown
     * first, so an empty list panics; then lines are read until one picks
     * a seed; at the end of input the result is nil.
     */
    method SelectSeed(lines: seq<string>) returns (r: Outcome<Option<Seed>>)
      requires Valid()
      ensures |seeds| == 0 ==> r == Panic(IndexOutOfRange)
      ensures |seeds| > 0 ==> r == Return(Selection(lines))
    {
      if |seeds| == 0 {
        return Panic(IndexOutOfRange);
      }
      var i := 0;
      while i < |lines|
        invariant 0 <= i <= |lines|
        invariant Selection(lines) == Selection(lines[i..])
      {
        var name := lines[i];
        assert lines[i..][0] == name && lines[i..][1..] == lines[i + 1..];
        var seed: Option<Seed>;
        if |name| == 0 {
          seed := Some(seeds[0]);
        } else {
          seed := GetSeed(name);
        }
        if seed.Some? {
          return Return(seed);
        }
        i := i + 1;
      }
      return Return(None);
    }
  }

  /**
   * The selection is the seed of the first line that picks one: nil
   * exactly when no line does; the first seed for a blank line; otherwise
   * the seed registered under the line.
   */
  lemma {:induction false} SelectionFacts(reg: SeedRegistry, lines: seq<string>)
    requires reg.Valid() && |reg.seeds| > 0
    ensures reg.Selection(lines).None? <==> forall k :: 0 <= k < |lines| ==> !reg.Picks(lines[k])
    ensures reg.Selection(lines).Some? ==> exists k :: 0 <= k < |lines| && FirstPick(reg, lines, k)
    decreases |lines|
  {
    if lines != [] {
      SelectionFacts(reg, lines[1..]);
      assert forall k :: 0 < k < |lines| ==> lines[k] == lines[1..][k - 1];
      if reg.Picks(lines[0]) {
        assert FirstPick(reg, lines, 0);
      } else if reg.Selection(lines).Some? {
        var k :| 0 <= k < |lines[1..]| && FirstPick(reg, lines[1..], k);
        assert FirstPick(reg, lines, k + 1);
      }
    }
  }

  /** Line `k` is the first line that picks a seed, and the selection is the seed it picks. */
  ghost predicate FirstPick(reg: SeedRegistry, lines: seq<string>, k: int)
    reads reg
    requires reg.Valid() && |reg.seeds| > 0 && 0 <= k < |lines|
  {
    && reg.Picks(lines[k])
    && (forall l :: 0 <= l < k ==> !reg.Picks(lines[l]))
    && reg.Selection(lines) == (if |lines[k]| == 0 then Some(reg.seeds[0]) else reg.GetSeed(lines[k]))
  }
}
