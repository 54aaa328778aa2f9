/**
 * What the two asset packages (asset/asset.go and tasks/asset/asset.go)
 * share: a registry of assets by name that `Register` fills in batches and
 * `Stat` looks up, and the lazily unzipped read buffer behind `Read`.
 * Each package instantiates the registry with its own `Asset` type and
 * the function that gives an asset's name `N`.
 */
module AssetRegistry {
  import opened Errors
  import opened Bytes

  const NilBatchMessage := "bud: Register assets is nil"
  const EmptyNameMessage := "asset open file name empty"
  const EOF := "EOF"

  function DuplicateMessage(name: string): string {
    "bud: Register called twice for asset " + name
  }

  function UnzipMessage(name: string): string {
    "Asset unzip file " + name + " error."
  }

  /** What `Open` and `Stat` give: the registered asset, a hand-over to the file system, or the empty-name error. */
  datatype Lookup<+T> = InAsset(value: T) | InFileSystem(name: string) | LookupFailed(msg: string)

  // ---------------------------------------------------------------- Register

  /** The loop of `Register` over a batch: each asset goes in under its name, and a name already present panics. */
  function RegisterAll<A>(m: map<string, A>, batch: seq<A>, name: A -> string): (map<string, A>, Completion)
    decreases |batch|
  {
    if batch == [] then (m, Completed)
    else if name(batch[0]) in m then (m, Panicked(DuplicateMessage(name(batch[0]))))
    else RegisterAll(m[name(batch[0]) := batch[0]], batch[1..], name)
  }

  predicate DistinctNames<A>(batch: seq<A>, name: A -> string) {
    forall i, j :: 0 <= i < j < |batch| ==> name(batch[i]) != name(batch[j])
  }

  predicate NamesAbsent<A>(m: map<string, A>, batch: seq<A>, name: A -> string) {
    forall i :: 0 <= i < |batch| ==> name(batch[i]) !in m
  }

  /**
   * A batch registers without a panic exactly when its names are distinct
   * and none is registered yet; then every asset of the batch is found
   * under its name. Entries already registered stay in every case, and
   * nothing but the batch's names is added.
   */
  lemma {:induction false} RegisterAllFacts<A>(m: map<string, A>, batch: seq<A>, name: A -> string)
    ensures var (r, c) := RegisterAll(m, batch, name);
      && (c == Completed <==> DistinctNames(batch, name) && NamesAbsent(m, batch, name))
      && (c == Completed ==> forall k :: 0 <= k < |batch| ==> name(batch[k]) in r && r[name(batch[k])] == batch[k])
      && (forall x :: x in m ==> x in r && r[x] == m[x])
      && (forall x :: x in r && x !in m ==> exists k :: 0 <= k < |batch| && name(batch[k]) == x)
    decreases |batch|
  {
    if batch != [] {
      var a := batch[0];
      var rest := batch[1..];
      assert forall k :: 0 < k < |batch| ==> batch[k] == rest[k - 1];
      if name(a) !in m {
        var m' := m[name(a) := a];
        RegisterAllFacts(m', rest, name);
        var (r, c) := RegisterAll(m', rest, name);
        if DistinctNames(batch, name) && NamesAbsent(m, batch, name) {
          assert NamesAbsent(m', rest, name) by {
            forall i | 0 <= i < |rest| ensures name(rest[i]) !in m' {
              assert name(batch[0]) != name(batch[i + 1]);
            }
          }
        }
        if c == Completed {
          forall i, j | 0 <= i < j < |batch| ensures name(batch[i]) != name(batch[j]) {
            if i == 0 {
              assert name(rest[j - 1]) !in m';
            }
          }
          forall k | 0 <= k < |batch| ensures name(batch[k]) in r && r[name(batch[k])] == batch[k] {
            if k == 0 {
              assert name(a) in m' && m'[name(a)] == a;
            }
          }
        }
        forall x | x in r && x !in m ensures exists k :: 0 <= k < |batch| && name(batch[k]) == x {
          if x == name(a) {
            assert name(batch[0]) == x;
          } else {
            var k :| 0 <= k < |rest| && name(rest[k]) == x;
            assert name(batch[k + 1]) == x;
          }
        }
      } else {
        assert !NamesAbsent(m, batch, name) by {
          assert name(batch[0]) in m;
        }
      }
    }
  }

  /** The assets before `batch[k]` go in without a panic, and then the name of `batch[k]` is taken. */
  ghost predicate PanicsAt<A>(m: map<string, A>, batch: seq<A>, name: A -> string, k: int)
    requires 0 <= k < |batch|
  {
    var (r, c) := RegisterAll(m, batch[..k], name);
    && c == Completed
    && name(batch[k]) in r
    && RegisterAll(m, batch, name) == (r, Panicked(DuplicateMessage(name(batch[k]))))
  }

  /** A panic is raised by the first asset whose name is taken, after the assets before it went in. */
  lemma {:induction false} RegisterAllPanics<A>(m: map<string, A>, batch: seq<A>, name: A -> string)
    requires RegisterAll(m, batch, name).1.Panicked?
    ensures exists k :: 0 <= k < |batch| && PanicsAt(m, batch, name, k)
    decreases |batch|
  {
    var a := batch[0];
    assert batch[..0] == [];
    if name(a) in m {
      assert RegisterAll(m, batch[..0], name) == (m, Completed);
      assert PanicsAt(m, batch, name, 0);
    } else {
      var m' := m[name(a) := a];
      RegisterAllPanics(m', batch[1..], name);
      var k :| 0 <= k < |batch[1..]| && PanicsAt(m', batch[1..], name, k);
      assert batch[..k + 1][0] == a && batch[..k + 1][1..] == batch[1..][..k];
      assert batch[1..][k] == batch[k + 1];
      assert PanicsAt(m, batch, name, k + 1);
    }
  }

  /** The registry of one asset package: its assets by name. */
  class Registry<A> {
    var assets: map<string, A>

    /** The empty registry the package starts with. */
    constructor ()
      ensures assets == map[]
    {
      assets := map[];
    }

    /**
     * `Register`: a nil batch panics; otherwise the assets go in one by
     * one and the first name already present panics, leaving the earlier
     * ones registered.
     */
    method Register(batch: Option<seq<A>>, name: A -> string) returns (c: Completion)
      modifies this
      ensures batch.None? ==> c == Panicked(NilBatchMessage) && assets == old(assets)
      ensures batch.Some? ==> (assets, c) == RegisterAll(old(assets), batch.value, name)
    {
      if batch.None? {
        return Panicked(NilBatchMessage);
      }
      var assetList := batch.value;
      var i := 0;
      while i < |assetList|
        invariant 0 <= i <= |assetList|
        invariant RegisterAll(old(assets), assetList, name) == RegisterAll(assets, assetList[i..], name)
      {
        var asset := assetList[i];
        assert assetList[i..][0] == asset && assetList[i..][1..] == assetList[i + 1..];
        if name(asset) in assets {
          return Panicked(DuplicateMessage(name(asset)));
        }
        assets := assets[name(asset) := asset];
        i := i + 1;
      }
      return Completed;
    }

    /** `Stat`: an empty name is an error, a registered name gives its asset, any other name is left to the file system. */
    function Stat(name: string): (r: Lookup<A>)
      reads this
      ensures r.LookupFailed? <==> name == []
      ensures r.InAsset? <==> name != [] && name in assets
      ensures r.InAsset? ==> r.value == assets[name]
      ensures r.InFileSystem? ==> r.name == name
      ensures r.LookupFailed? ==> r.msg == EmptyNameMessage
    {
      if |name| == 0 then LookupFailed(EmptyNameMessage)
      else if name in assets then InAsset(assets[name])
      else InFileSystem(name)
    }
  }

  /** Every asset of a batch that registered without a panic is what `Stat` gives for its name. */
  lemma StatAfterRegister<A>(old_assets: map<string, A>, batch: seq<A>, name: A -> string, reg: Registry<A>, k: int)
    requires (reg.assets, Completed) == RegisterAll(old_assets, batch, name)
    requires 0 <= k < |batch| && name(batch[k]) != []
    ensures reg.Stat(name(batch[k])) == InAsset(batch[k])
  {
    RegisterAllFacts(old_assets, batch, name);
  }

  // ---------------------------------------------------------------- Read

  /** `bytes.Buffer.Read` into a slice of length `pLen`: the bytes copied, the bytes left, and `EOF` once the buffer is empty. */
  function BufferRead(b: seq<byte>, pLen: nat): (seq<byte>, seq<byte>, Status) {
    if |b| == 0 then ([], [], if pLen == 0 then Nil else Error(EOF))
    else
      var k := if pLen < |b| then pLen else |b|;
      (b[..k], b[k..], Nil)
  }

  /** What unzipping `Z` gives: a bad gzip header, or the bytes copied out with the copy's error. */
  datatype Unzipped = BadHeader(msg: string) | Copied(data: seq<byte>, err: Status)

  /** A read result: the new buffer `Buf` (None while nil), the bytes given to the caller, and the error. */
  datatype ReadResult = ReadResult(buf: Option<seq<byte>>, out: seq<byte>, err: Status)

  /**
   * `Read` of a file asset named `n` with compressed data `z` and size
   * `s`: the first read unzips `z` into the buffer and checks its size;
   * every read then takes the next bytes from the buffer.
   */
  function ReadFile(n: string, z: seq<byte>, s: int, buf: Option<seq<byte>>, pLen: nat,
                    unzip: seq<byte> -> Unzipped): ReadResult
  {
    match buf
    case Some(b) =>
      var (out, rest, err) := BufferRead(b, pLen);
      ReadResult(Some(rest), out, err)
    case None =>
      match unzip(z)
      case BadHeader(msg) => ReadResult(None, [], Error(msg))
      case Copied(data, err) =>
        if err.Error? then ReadResult(Some(data), [], err)
        else if |data| != s then ReadResult(Some(data), [], Error(UnzipMessage(n)))
        else
          var (out, rest, e) := BufferRead(data, pLen);
          ReadResult(Some(rest), out, e)
  }

  /**
   * Reading from a filled buffer loses nothing and reorders nothing: the
   * bytes read, then the bytes left, are the buffer; at most `pLen` are
   * read, and none only when the buffer is empty or `pLen` is 0, which is
   * `EOF` exactly when the buffer is empty and `pLen` is not 0.
   */
  lemma ReadFromBuffer(n: string, z: seq<byte>, s: int, b: seq<byte>, pLen: nat, unzip: seq<byte> -> Unzipped)
    ensures var r := ReadFile(n, z, s, Some(b), pLen, unzip);
      && r.buf.Some? && r.out + r.buf.value == b
      && |r.out| <= pLen
      && (r.out == [] <==> b == [] || pLen == 0)
      && (r.err.Error? <==> b == [] && pLen > 0)
      && (r.err.Error? ==> r.err == Error(EOF))
  {
    if b != [] {
      var k := if pLen < |b| then pLen else |b|;
      assert b[..k] + b[k..] == b;
    }
  }

  /**
   * The first read unzips: when the copy gives exactly `s` bytes, that read
   * is a read from those bytes; when it gives another count, the read fails
   * with the unzip error but keeps the bytes, and the next read takes them
   * without checking the size again.
   */
  lemma FirstRead(n: string, z: seq<byte>, s: int, pLen: nat, unzip: seq<byte> -> Unzipped)
    requires unzip(z).Copied? && unzip(z).err == Nil
    ensures var data := unzip(z).data;
      var r := ReadFile(n, z, s, None, pLen, unzip);
      && (|data| == s ==> r == ReadFile(n, z, s, Some(data), pLen, unzip))
      && (|data| != s ==>
            && r == ReadResult(Some(data), [], Error(UnzipMessage(n)))
            && ReadFile(n, z, s, r.buf, pLen, unzip).err.Error? == (data == [] && pLen > 0))
  {
    ReadFromBuffer(n, z, s, unzip(z).data, pLen, unzip);
  }
}
