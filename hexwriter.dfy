/**
 * `HexWriter` (tasks/asset/hexwriter.go): a writer that passes every byte
 * it is given on to the underlying writer as the four bytes `\xHH`, with
 * lower-case hex digits, so the output can sit inside a Go string literal.
 */
module HexWriter {
  import opened Errors
  import opened Bytes

  /** "0123456789abcdef". */
  const HexTable: seq<byte> := [48, 49, 50, 51, 52, 53, 54, 55, 56, 57, 97, 98, 99, 100, 101, 102]

  const Backslash: byte := 92
  const LowerX: byte := 120

  /** The four bytes written for `b`: `\`, `x`, then the digits of its high and low nibble. */
  function Escape(b: byte): seq<byte> {
    [Backslash, LowerX, HexTable[b / 16], HexTable[b % 16]]
  }

  /** Everything written for `p`, byte after byte. */
  function Hex(p: seq<byte>): seq<byte> {
    if p == [] then [] else Escape(p[0]) + Hex(p[1..])
  }

  // ---------------------------------------------------------------- decoding

  predicate IsDigit(c: byte) {
    48 <= c <= 57 || 97 <= c <= 102
  }

  /** The value of a lower-case hex digit. */
  function DigitValue(c: byte): (v: int)
    requires IsDigit(c)
    ensures 0 <= v < 16 && HexTable[v] == c
  {
    if c <= 57 then c as int - 48 else c as int - 87
  }

  /** Reads back a sequence of `\xHH` escapes; `None` if it is anything else. */
  function Unhex(s: seq<byte>): Option<seq<byte>>
    decreases |s|
  {
    if s == [] then Some([])
    else if |s| < 4 || s[0] != Backslash || s[1] != LowerX || !IsDigit(s[2]) || !IsDigit(s[3]) then None
    else
      match Unhex(s[4..])
      case None => None
      case Some(rest) => Some([(DigitValue(s[2]) * 16 + DigitValue(s[3])) as byte] + rest)
  }

  // ---------------------------------------------------------------- properties

  /** The table holds the sixteen digits in order. */
  lemma HexTableDigits(d: int)
    requires 0 <= d < 16
    ensures IsDigit(HexTable[d]) && DigitValue(HexTable[d]) == d
  {
  }

  /** The escape of a byte reads back as that byte. */
  lemma EscapeDecodes(b: byte)
    ensures IsDigit(Escape(b)[2]) && IsDigit(Escape(b)[3])
    ensures DigitValue(Escape(b)[2]) * 16 + DigitValue(Escape(b)[3]) == b as int
  {
    HexTableDigits((b / 16) as int);
    HexTableDigits((b % 16) as int);
  }

  /** An escape in front of more escapes reads back as its byte in front of theirs. */
  lemma UnhexEscape(b: byte, rest: seq<byte>)
    ensures Unhex(Escape(b) + rest) == match Unhex(rest) case None => None case Some(r) => Some([b] + r)
  {
    var s := Escape(b) + rest;
    assert s[..4] == Escape(b) && s[4..] == rest;
    EscapeDecodes(b);
  }

  /** Four bytes per input byte. */
  lemma {:induction false} HexLength(p: seq<byte>)
    ensures |Hex(p)| == 4 * |p|
  {
    if p != [] {
      HexLength(p[1..]);
    }
  }

  /** The bytes of the `i`-th escape are `\`, `x` and the hex digits of `p[i]`, in input order. */
  lemma {:induction false} HexAt(p: seq<byte>, i: int)
    requires 0 <= i < |p|
    ensures |Hex(p)| == 4 * |p|
    ensures Hex(p)[4 * i..4 * i + 4] == [Backslash, LowerX, HexTable[p[i] / 16], HexTable[p[i] % 16]]
  {
    HexLength(p);
    if i > 0 {
      HexAt(p[1..], i - 1);
      HexLength(p[1..]);
      assert Hex(p)[4 * i..4 * i + 4] == Hex(p[1..])[4 * (i - 1)..4 * (i - 1) + 4];
    }
  }

  /** Writing `p` then `b` writes what writing `p + [b]` writes. */
  lemma {:induction false} HexSnoc(p: seq<byte>, b: byte)
    ensures Hex(p + [b]) == Hex(p) + Escape(b)
  {
    var q := p + [b];
    if p == [] {
      assert q == [b] && q[1..] == [];
    } else {
      assert q[0] == p[0] && q[1..] == p[1..] + [b];
      HexSnoc(p[1..], b);
      assert Hex(q) == Escape(p[0]) + Hex(p[1..] + [b]);
    }
  }

  /** Decoding the hex pairs gives back the input. */
  lemma {:induction false} HexRoundTrip(p: seq<byte>)
    ensures Unhex(Hex(p)) == Some(p)
  {
    if p != [] {
      UnhexEscape(p[0], Hex(p[1..]));
      HexRoundTrip(p[1..]);
      assert [p[0]] + p[1..] == p;
    }
  }

  // ---------------------------------------------------------------- the writer

  /** `HexWriter`: the underlying writer, given by what it has received, and the count `off`. */
  class HexWriter {
    var written: seq<byte>
    var off: int

    /** `&HexWriter{Writer: w}` over a writer that has received `w` so far. */
    constructor (w: seq<byte>)
      ensures written == w && off == 0
    {
      written := w;
      off := 0;
    }

    /**
     * `Write`: escapes each byte into the four-byte buffer `\x00` and
     * passes the buffer on, counting one in `off` per input byte. The
     * underlying writer's errors are ignored; the result is `len(p)` and
     * no error.
     */
    method Write(p: seq<byte>) returns (n: int, err: Status)
      modifies this
      ensures n == |p| && err == Nil
      ensures written == old(written) + Hex(p)
      ensures off == old(off) + |p|
    {
      if |p| == 0 {
        return 0, Nil;
      }
      var buf := new byte[4];
      buf[0], buf[1], buf[2], buf[3] := Backslash, LowerX, 48, 48;
      n := 0;
      var i := 0;
      while i < |p|
        invariant 0 <= i <= |p|
        invariant n == if i == 0 then 0 else i - 1
        invariant buf[0] == Backslash && buf[1] == LowerX
        invariant written == old(written) + Hex(p[..i])
        invariant off == old(off) + i
      {
        var b := p[i];
        n := i;
        buf[2] := HexTable[b / 16];
        buf[3] := HexTable[b % 16];
        assert buf[..] == Escape(b);
        written := written + buf[..];
        off := off + 1;
        HexSnoc(p[..i], b);
        assert p[..i + 1] == p[..i] + [b];
        i := i + 1;
      }
      assert p[..i] == p;
      n := n + 1;
      err := Nil;
    }
  }
}
