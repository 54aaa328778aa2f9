/**
 * The asset package the asset task generates code for
 * (tasks/asset/asset.go): the same registry as the asset package, over
 * assets that are never directories.
 */
module TaskAsset {
  import opened Errors
  import opened Bytes
  import opened AssetRegistry

  /** An embedded file: its name `N`, gzipped contents `Z`, size `S`, mode `M` and modification time `MT` (in seconds). */
  datatype Asset = Asset(n: string, z: seq<byte>, s: int, m: int, mt: int)
  {
    function Name(): string { n }
    function Size(): int { s }
    function Mode(): int { m }
    function ModTime(): int { mt }
    function IsDir(): bool { false }
  }

  function NameOf(a: Asset): string {
    a.n
  }

  /** An opened asset: a copy of the registered one with its own read buffer `Buf`, nil until the first read. */
  class AssetFile {
    const asset: Asset
    var buf: Option<seq<byte>>

    constructor (a: Asset)
      ensures asset == a && buf == None
    {
      asset := a;
      buf := None;
    }

    /** `Close` has nothing to release. */
    function Close(): (err: Status)
      ensures err == Nil
    {
      Nil
    }

    /** `Read` into a slice of length `pLen`, giving the bytes read, through the buffer unzipped by `unzip` on the first read. */
    method Read(pLen: nat, unzip: seq<byte> -> Unzipped) returns (n: int, out: seq<byte>, err: Status)
      modifies this`buf
      ensures ReadResult(buf, out, err) == ReadFile(asset.n, asset.z, asset.s, old(buf), pLen, unzip)
      ensures n == |out|
    {
      if buf.None? {
        match unzip(asset.z) {
          case BadHeader(msg) =>
            return 0, [], Error(msg);
          case Copied(data, copyErr) =>
            buf := Some(data);
            if copyErr.Error? {
              return 0, [], copyErr;
            }
            if |data| != asset.s {
              return 0, [], Error(UnzipMessage(asset.n));
            }
        }
      }
      var (read, rest, e) := BufferRead(buf.value, pLen);
      buf := Some(rest);
      return |read|, read, e;
    }
  }

  /** `Open`: like `Stat`, but a registered name gives a fresh copy of its asset, ready to be read. */
  method Open(reg: Registry<Asset>, name: string) returns (r: Lookup<AssetFile>)
    ensures r.InAsset? <==> reg.Stat(name).InAsset?
    ensures r.InAsset? ==> fresh(r.value) && r.value.asset == reg.Stat(name).value && r.value.buf == None
    ensures r.InFileSystem? <==> reg.Stat(name).InFileSystem?
    ensures r.LookupFailed? ==> reg.Stat(name) == LookupFailed(r.msg)
    ensures r.InFileSystem? ==> r.name == name
  {
    if |name| == 0 {
      return LookupFailed(EmptyNameMessage);
    }
    if name in reg.assets {
      var f := new AssetFile(reg.assets[name]);
      return InAsset(f);
    }
    return InFileSystem(name);
  }

  /**
   * After a batch registers without a panic, `Stat` of each of its names
   * reports that asset's name, size, mode and modification time, and
   * never a directory.
   */
  lemma StatReportsRegistered(before: map<string, Asset>, batch: seq<Asset>, reg: Registry<Asset>, k: int)
    requires (reg.assets, Completed) == RegisterAll(before, batch, NameOf)
    requires 0 <= k < |batch| && batch[k].n != []
    ensures var info := reg.Stat(batch[k].n);
      && info.InAsset?
      && info.value.Name() == batch[k].n
      && info.value.Size() == batch[k].s
      && info.value.Mode() == batch[k].m
      && info.value.ModTime() == batch[k].mt
      && !info.value.IsDir()
  {
    StatAfterRegister(before, batch, NameOf, reg, k);
  }
}
