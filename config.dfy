/**
 * Configuration layers and how they bind onto an executor's fields
 * (context/task.go, `configTask`). The configuration store and its
 * reflective `SetStruct` are external; a layer is modelled as a partial
 * map from field name to value, and binding writes a value only into a
 * field that exists and has the same kind.
 */
module Config {
  import opened Errors

  /** The kinds of value a layer can hold and a field can receive. */
  datatype Value = Str(s: string) | Bool(b: bool) | Int(i: int) | Strings(ss: seq<string>)

  predicate SameKind(a: Value, b: Value) {
    (a.Str? && b.Str?) || (a.Bool? && b.Bool?) || (a.Int? && b.Int?) || (a.Strings? && b.Strings?)
  }

  /** The addressable fields of an executor, by name. */
  type Fields = map<string, Value>

  /** A configuration layer, or one that the binder rejects with an error. */
  datatype Config = Layer(values: map<string, Value>) | Unbindable(reason: string)

  /** The value `values` gives field `k` when it names `k` with the field's kind. */
  function Assigned(values: map<string, Value>, k: string, current: Value): Option<Value> {
    if k in values && SameKind(values[k], current) then Some(values[k]) else None
  }

  /**
   * Binds one layer: each field the layer names with a value of the field's
   * kind takes that value; unknown keys and kind mismatches are ignored.
   */
  function Bind(f: Fields, values: map<string, Value>): (r: Fields)
    ensures r.Keys == f.Keys
    ensures forall k :: k in f ==> SameKind(r[k], f[k])
    ensures forall k :: k in f && k !in values ==> r[k] == f[k]
    ensures forall k :: k in f && k in values && SameKind(values[k], f[k]) ==> r[k] == values[k]
    ensures forall k :: k in f && k in values && !SameKind(values[k], f[k]) ==> r[k] == f[k]
  {
    map k | k in f :: if k in values && SameKind(values[k], f[k]) then values[k] else f[k]
  }

  /** `SetStruct`: binds a layer, or fails for one the binder rejects. */
  function SetStruct(c: Config, f: Fields): (r: Result<Fields>)
    ensures c.Layer? ==> r == Ok(Bind(f, c.values))
    ensures c.Unbindable? ==> r.Failed?
  {
    match c
    case Layer(values) => Ok(Bind(f, values))
    case Unbindable(reason) => Failed(reason)
  }

  /** Binds the layers in order, lowest precedence first, stopping at the first rejected one. */
  function ApplyAll(f: Fields, layers: seq<Config>): (r: (Fields, Status))
    ensures r.0.Keys == f.Keys
    ensures r.1.Nil? <==> forall i :: 0 <= i < |layers| ==> layers[i].Layer?
    decreases |layers|
  {
    if layers == [] then (f, Nil)
    else match SetStruct(layers[0], f)
      case Failed(msg) => (f, Error(msg))
      case Ok(f') =>
        var r := ApplyAll(f', layers[1..]);
        assert forall i :: 1 <= i < |layers| ==> layers[i] == layers[1..][i - 1];
        r
  }

  /** The value the highest-precedence layer that can set field `k` gives it, if any. */
  function Winner(layers: seq<Config>, k: string, current: Value): Option<Value>
    decreases |layers|
  {
    if layers == [] then None
    else
      var last := layers[|layers| - 1];
      if last.Layer? && Assigned(last.values, k, current).Some? then Assigned(last.values, k, current)
      else Winner(layers[..|layers| - 1], k, current)
  }

  /**
   * Binding stops at the first rejected layer: its reason is the error, and
   * the fields are those the layers before it left, the rest never bound.
   */
  lemma {:induction false} ApplyAllStops(f: Fields, layers: seq<Config>, i: nat)
    requires i < |layers| && layers[i].Unbindable?
    requires forall j :: 0 <= j < i ==> layers[j].Layer?
    ensures ApplyAll(f, layers) == (ApplyAll(f, layers[..i]).0, Error(layers[i].reason))
    decreases i
  {
    if i > 0 {
      assert layers[1..][..i - 1] == layers[..i][1..];
      assert forall j :: 0 <= j < i - 1 ==> layers[1..][j] == layers[j + 1];
      ApplyAllStops(Bind(f, layers[0].values), layers[1..], i - 1);
    }
  }

  /** The first rejected layer at or before a rejected layer `k`. */
  lemma {:induction false} FirstRejected(layers: seq<Config>, k: nat) returns (i: nat)
    requires k < |layers| && layers[k].Unbindable?
    ensures i <= k && layers[i].Unbindable?
    ensures forall j :: 0 <= j < i ==> layers[j].Layer?
    decreases k
  {
    if j :| 0 <= j < k && layers[j].Unbindable? {
      i := FirstRejected(layers, j);
    } else {
      i := k;
    }
  }

  lemma {:induction false} ApplyAllSnoc(f: Fields, layers: seq<Config>, c: Config)
    requires forall i :: 0 <= i < |layers| ==> layers[i].Layer?
    requires c.Layer?
    ensures ApplyAll(f, layers + [c]).0 == Bind(ApplyAll(f, layers).0, c.values)
    decreases |layers|
  {
    if layers == [] {
      assert [c][1..] == [];
    } else {
      assert (layers + [c])[1..] == layers[1..] + [c];
      ApplyAllSnoc(Bind(f, layers[0].values), layers[1..], c);
    }
  }

  /**
   * Later layers win: after binding all layers, a field holds the value of
   * the last layer that names it with the field's kind, and keeps its old
   * value when no layer does.
   */
  lemma {:induction false} LastLayerWins(f: Fields, layers: seq<Config>, k: string)
    requires forall i :: 0 <= i < |layers| ==> layers[i].Layer?
    requires k in f
    ensures k in ApplyAll(f, layers).0
    ensures ApplyAll(f, layers).0[k] == match Winner(layers, k, f[k]) case Some(v) => v case None => f[k]
    decreases |layers|
  {
    if layers != [] {
      var init, last := layers[..|layers| - 1], layers[|layers| - 1];
      assert layers == init + [last];
      ApplyAllSnoc(f, init, last);
      LastLayerWins(f, init, k);
      KindKept(f, init, k);
    }
  }

  lemma {:induction false} KindKept(f: Fields, layers: seq<Config>, k: string)
    requires k in f
    ensures k in ApplyAll(f, layers).0 && SameKind(ApplyAll(f, layers).0[k], f[k])
    ensures forall v :: SameKind(v, ApplyAll(f, layers).0[k]) <==> SameKind(v, f[k])
    decreases |layers|
  {
    if layers != [] && layers[0].Layer? {
      KindKept(Bind(f, layers[0].values), layers[1..], k);
    }
  }

  /** Binding the same layer twice is the same as binding it once. */
  lemma BindIdempotent(f: Fields, values: map<string, Value>)
    ensures Bind(Bind(f, values), values) == Bind(f, values)
  {
  }

  /**
   * Unknown keys and values of the wrong kind are ignored without error:
   * layers that name no field of `f` with a value of its kind leave `f`
   * unchanged.
   */
  lemma {:induction false} MismatchIgnored(f: Fields, layers: seq<Config>)
    requires forall i :: 0 <= i < |layers| ==> layers[i].Layer?
    requires forall i, k :: 0 <= i < |layers| && k in f && k in layers[i].values ==> !SameKind(layers[i].values[k], f[k])
    ensures ApplyAll(f, layers) == (f, Nil)
    decreases |layers|
  {
    if layers != [] {
      assert Bind(f, layers[0].values) == f;
      assert forall i :: 0 <= i < |layers| - 1 ==> layers[1..][i] == layers[i + 1];
      MismatchIgnored(f, layers[1..]);
    }
  }

  /** For example, `{extra: true, num: "oops"}` onto a struct whose only field is the integer `num`. */
  lemma MismatchExample(n: int)
    ensures ApplyAll(map["num" := Int(n)], [Layer(map["extra" := Bool(true), "num" := Str("oops")])])
         == (map["num" := Int(n)], Nil)
  {
    var f := map["num" := Int(n)];
    assert Bind(f, map["extra" := Bool(true), "num" := Str("oops")]) == f;
  }
}
