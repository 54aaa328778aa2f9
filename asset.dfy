/**
 * The asset package (asset/asset.go): embedded files registered by name,
 * opened or stat-ed from the registry before falling back to the file
 * system, and read through a buffer filled by unzipping them.
 */
module Asset {
  import opened Errors
  import opened Bytes
  import opened AssetRegistry

  /**
   * An embedded file: its name `N`, its gzipped contents `Z`, its size `S`,
   * whether it is a directory `D`, its mode `M` and its modification time
   * `MT` (in seconds).
   */
  datatype Asset = Asset(n: string, z: seq<byte>, s: int, d: bool, m: int, mt: int)
  {
    function Name(): string { n }
    function Size(): int { s }
    function Mode(): int { m }
    function ModTime(): int { mt }
    function IsDir(): bool { d }
  }

  function NameOf(a: Asset): string {
    a.n
  }

  /** An opened asset: a copy of the registered one with its own read buffer `Buf`, nil until the first read. */
  class AssetFile {
    const asset: Asset
    var buf: Option<seq<byte>>

    constructor (a: Asset)
      ensures asset == a && buf == None
    {
      asset := a;
      buf := None;
    }

    /** `Close` has nothing to release. */
    function Close(): (err: Status)
      ensures err == Nil
    {
      Nil
    }

    /**
     * `Read` into a slice of length `pLen`, giving the bytes read: a
     * directory reads nothing and succeeds; a file is read through its
     * buffer, unzipped by `unzip` on the first read.
     */
    method Read(pLen: nat, unzip: seq<byte> -> Unzipped) returns (n: int, out: seq<byte>, err: Status)
      modifies this`buf
      ensures asset.d ==> n == 0 && out == [] && err == Nil && buf == old(buf)
      ensures !asset.d ==> ReadResult(buf, out, err) == ReadFile(asset.n, asset.z, asset.s, old(buf), pLen, unzip)
      ensures n == |out|
    {
      if asset.IsDir() {
        return 0, [], Nil;
      }
      if buf.None? {
        match unzip(asset.z) {
          case BadHeader(msg) =>
            return 0, [], Error(msg);
          case Copied(data, copyErr) =>
            buf := Some(data);
            if copyErr.Error? {
              return 0, [], copyErr;
            }
            if |data| != asset.s {
              return 0, [], Error(UnzipMessage(asset.n));
            }
        }
      }
      var (read, rest, e) := BufferRead(buf.value, pLen);
      buf := Some(rest);
      return |read|, read, e;
    }
  }

  /** `Open`: like `Stat`, but a registered name gives a fresh copy of its asset, ready to be read. */
  method Open(reg: Registry<Asset>, name: string) returns (r: Lookup<AssetFile>)
    ensures r.InAsset? <==> reg.Stat(name).InAsset?
    ensures r.InAsset? ==> fresh(r.value) && r.value.asset == reg.Stat(name).value && r.value.buf == None
    ensures r.InFileSystem? <==> reg.Stat(name).InFileSystem?
    ensures r.LookupFailed? ==> reg.Stat(name) == LookupFailed(r.msg)
    ensures r.InFileSystem? ==> r.name == name
  {
    if |name| == 0 {
      return LookupFailed(EmptyNameMessage);
    }
    if name in reg.assets {
      var f := new AssetFile(reg.assets[name]);
      return InAsset(f);
    }
    return InFileSystem(name);
  }

  /**
   * After a batch registers without a panic, `Stat` of each of its names
   * reports that asset's name, size, mode, modification time and
   * directory flag.
   */
  lemma StatReportsRegistered(before: map<string, Asset>, batch: seq<Asset>, reg: Registry<Asset>, k: int)
    requires (reg.assets, Completed) == RegisterAll(before, batch, NameOf)
    requires 0 <= k < |batch| && batch[k].n != []
    ensures var info := reg.Stat(batch[k].n);
      && info.InAsset?
      && info.value.Name() == batch[k].n
      && info.value.Size() == batch[k].s
      && info.value.Mode() == batch[k].m
      && info.value.ModTime() == batch[k].mt
      && info.value.IsDir() == batch[k].d
  {
    StatAfterRegister(before, batch, NameOf, reg, k);
  }
}
