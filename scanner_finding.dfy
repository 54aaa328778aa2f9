/**
 * A function written without a blank before its body, "func f(){}":
 * what `stateEnd` as written makes of it, and what the corrected one does.
 */
module ScannerFinding {
  import opened Errors
  import opened Bytes
  import opened Scanner
  import opened ScannerProperties

  /** "func f(){}". */
  const FuncNoSpace: seq<byte> := [102, 117, 110, 99, 32, 102, 40, 41, 123, 125]

  /** The scanner after "func f()": a func statement at depth 0 at `stateEnd`, nothing recorded yet. */
  const Header := Scan(End, Nil, 8, FuncNoSpace[..8], Fun, false, 0, NoneFound)

  /** Proof scaffolding, not a property: one step of `FeedAll`'s definition after a byte that does not fail. */
  lemma FeedAllCons(s: Scan, c: byte, rest: seq<byte>, asWritten: bool)
    requires Feed(s, c, asWritten).code != ScanError
    ensures FeedAll(s, [c] + rest, asWritten) == FeedAll(Feed(s, c, asWritten).s, rest, asWritten)
  {
    assert ([c] + rest)[0] == c && ([c] + rest)[1..] == rest;
  }

  /** A lower-case letter starts a statement. */
  lemma FeedFirst(s: Scan, c: byte, asWritten: bool)
    requires s.step == Begin && s.bufType == Unknown && 97 <= c <= 122
    ensures Feed(s, c, asWritten) ==
      Stepped(s.(step := ParseLine, bytes := s.bytes + 1, parseBuf := s.parseBuf + [c]), AppendBuf)
  {
  }

  /** A lower-case letter inside a statement is appended and changes nothing else. */
  lemma FeedLetter(s: Scan, c: byte, asWritten: bool)
    requires s.step == ParseLine && !s.inQuote && 97 <= c <= 122
    ensures Feed(s, c, asWritten) == Stepped(s.(bytes := s.bytes + 1, parseBuf := s.parseBuf + [c]), AppendBuf)
  {
  }

  /** A blank after the first word decides the kind of the statement. */
  lemma FeedSpace(s: Scan, asWritten: bool)
    requires s.step == ParseLine && s.bufType == Unknown
    ensures Feed(s, Space, asWritten) ==
      Stepped(s.(bytes := s.bytes + 1, bufType := KeywordType(s.parseBuf), parseBuf := s.parseBuf + [Space]), AppendBuf)
  {
  }

  /** An opening bracket of a statement of known kind is counted. */
  lemma FeedOpen(s: Scan, c: byte, asWritten: bool)
    requires s.step == ParseLine && s.bufType != Unknown && !s.inQuote && (c == LParen || c == LBrace)
    ensures Feed(s, c, asWritten) ==
      Stepped(s.(bytes := s.bytes + 1, bracketNum := s.bracketNum + 1, parseBuf := s.parseBuf + [c]), AppendBuf)
  {
  }

  /** A closing bracket of a statement of known kind is counted, and ends the statement at depth 0. */
  lemma FeedClose(s: Scan, c: byte, asWritten: bool)
    requires s.step == ParseLine && s.bufType != Unknown && !s.inQuote && (c == RParen || c == RBrace)
    ensures Feed(s, c, asWritten) ==
      Stepped(s.(bytes := s.bytes + 1, bracketNum := s.bracketNum - 1, step := if s.bracketNum == 1 then End else ParseLine,
                 parseBuf := s.parseBuf + [c]), AppendBuf)
  {
  }

  /** The scanner after "func": the first word, kind not yet known. */
  const Word := Scan(ParseLine, Nil, 4, FuncNoSpace[..4], Unknown, false, 0, NoneFound)

  /** The scanner after "func f": a func statement. */
  const Named := Scan(ParseLine, Nil, 6, FuncNoSpace[..6], Fun, false, 0, NoneFound)

  /** The scanner after "fu". */
  const Started := Scan(ParseLine, Nil, 2, FuncNoSpace[..2], Unknown, false, 0, NoneFound)

  lemma StartScanned(asWritten: bool)
    ensures FeedAll(Reset(Fresh), FuncNoSpace, asWritten) == FeedAll(Started, FuncNoSpace[2..], asWritten)
  {
    var d := FuncNoSpace;
    var s0 := Reset(Fresh);
    assert d == [102] + d[1..] && d[1..] == [117] + d[2..];
    FeedFirst(s0, 102, asWritten);
    var s1 := s0.(step := ParseLine, bytes := 1, parseBuf := [102]);
    assert Feed(s0, 102, asWritten).s == s1;
    FeedAllCons(s0, 102, d[1..], asWritten);
    FeedLetter(s1, 117, asWritten);
    FeedAllCons(s1, 117, d[2..], asWritten);
    assert Feed(s1, 117, asWritten).s == Started;
  }

  lemma WordScanned(asWritten: bool)
    ensures FeedAll(Started, FuncNoSpace[2..], asWritten) == FeedAll(Word, FuncNoSpace[4..], asWritten)
  {
    var d := FuncNoSpace;
    assert d[2..] == [110] + d[3..] && d[3..] == [99] + d[4..];
    FeedLetter(Started, 110, asWritten);
    var s3 := Started.(bytes := 3, parseBuf := d[..3]);
    assert Feed(Started, 110, asWritten).s == s3;
    FeedAllCons(Started, 110, d[3..], asWritten);
    FeedLetter(s3, 99, asWritten);
    FeedAllCons(s3, 99, d[4..], asWritten);
    assert Feed(s3, 99, asWritten).s == Word;
  }

  lemma NameScanned(asWritten: bool)
    ensures FeedAll(Word, FuncNoSpace[4..], asWritten) == FeedAll(Named, FuncNoSpace[6..], asWritten)
  {
    var d := FuncNoSpace;
    assert d[4..] == [Space] + d[5..] && d[5..] == [102] + d[6..];
    KeywordTypeExact(Word.parseBuf);
    FeedSpace(Word, asWritten);
    var s5 := Word.(bytes := 5, bufType := Fun, parseBuf := d[..5]);
    assert Feed(Word, Space, asWritten).s == s5;
    FeedAllCons(Word, Space, d[5..], asWritten);
    FeedLetter(s5, 102, asWritten);
    FeedAllCons(s5, 102, d[6..], asWritten);
    assert Feed(s5, 102, asWritten).s == Named;
  }

  lemma ParensScanned(asWritten: bool)
    ensures FeedAll(Named, FuncNoSpace[6..], asWritten) == FeedAll(Header, FuncNoSpace[8..], asWritten)
  {
    var d := FuncNoSpace;
    assert d[6..] == [LParen] + d[7..] && d[7..] == [RParen] + d[8..];
    FeedOpen(Named, LParen, asWritten);
    var s7 := Named.(bytes := 7, bracketNum := 1, parseBuf := d[..7]);
    assert Feed(Named, LParen, asWritten).s == s7;
    FeedAllCons(Named, LParen, d[7..], asWritten);
    FeedClose(s7, RParen, asWritten);
    FeedAllCons(s7, RParen, d[8..], asWritten);
    assert Feed(s7, RParen, asWritten).s == Header;
  }

  /** The scanner reaches `Header` on "func f()", whichever `stateEnd` it uses. */
  lemma FuncHeaderScanned(asWritten: bool)
    ensures FeedAll(Reset(Fresh), FuncNoSpace, asWritten) == FeedAll(Header, FuncNoSpace[8..], asWritten)
  {
    StartScanned(asWritten);
    WordScanned(asWritten);
    NameScanned(asWritten);
    ParensScanned(asWritten);
  }

  /** As written, `stateEnd` appends the byte after an unfinished func without looking at it. */
  lemma FeedEndAsWritten(s: Scan, c: byte)
    requires s.step == End && s.bufType == Fun && LBrace !in s.parseBuf
    ensures Feed(s, c, true) == Stepped(s.(bytes := s.bytes + 1, step := ParseLine, parseBuf := s.parseBuf + [c]), AppendBuf)
  {
  }

  /** Corrected, `stateEnd` hands the byte after an unfinished func to `stateParseLine`, which counts a `{`. */
  lemma FeedEndUnfinished(s: Scan)
    requires s.step == End && s.bufType == Fun && LBrace !in s.parseBuf && !s.inQuote
    ensures Feed(s, LBrace, false) ==
      Stepped(s.(bytes := s.bytes + 1, step := ParseLine, bracketNum := s.bracketNum + 1, parseBuf := s.parseBuf + [LBrace]), AppendBuf)
  {
  }

  /** As written, the `{` is not counted and the `}` takes the depth to -1. */
  lemma BodyLost()
    ensures FeedAll(Header, FuncNoSpace[8..], true) == Scan(ParseLine, Nil, 10, FuncNoSpace, Fun, false, -1, NoneFound)
  {
    var d := FuncNoSpace;
    assert d[8..] == [LBrace] + [RBrace];
    FeedEndAsWritten(Header, LBrace);
    var u := Header.(bytes := 9, step := ParseLine, parseBuf := d[..9]);
    FeedAllCons(Header, LBrace, [RBrace], true);
    FeedClose(u, RBrace, true);
    FeedAllCons(u, RBrace, [], true);
  }

  /** Corrected, the `{` is counted and the `}` ends the statement at depth 0. */
  lemma BodyClosed()
    ensures FeedAll(Header, FuncNoSpace[8..], false) == Scan(End, Nil, 10, FuncNoSpace, Fun, false, 0, NoneFound)
  {
    var d := FuncNoSpace;
    assert d[8..] == [LBrace] + [RBrace];
    FeedEndUnfinished(Header);
    var u := Header.(bytes := 9, step := ParseLine, bracketNum := 1, parseBuf := d[..9]);
    FeedAllCons(Header, LBrace, [RBrace], false);
    FeedClose(u, RBrace, false);
    FeedAllCons(u, RBrace, [], false);
  }

  /** A line end inside brackets does not end the statement. */
  lemma LineEndInside(s: Scan)
    requires s.step == ParseLine && s.bufType != Unknown && !s.inQuote && s.bracketNum != 0
    ensures StepAsWritten(s, LF) == Stepped(s, AppendBuf)
  {
  }

  /**
   * As written, the complete function "func f(){}" is lost: the `{` right
   * after ")" is appended without being counted, so the closing `}` takes
   * the depth to -1 and the statement never ends; no error is reported.
   */
  lemma FuncWithoutSpaceLost()
    ensures Scanned(Fresh, FuncNoSpace, true).found == NoneFound
    ensures Scanned(Fresh, FuncNoSpace, true).err == Nil
    ensures Scanned(Fresh, FuncNoSpace, true).bracketNum == -1
  {
    FuncHeaderScanned(true);
    BodyLost();
    var v := Scan(ParseLine, Nil, 10, FuncNoSpace, Fun, false, -1, NoneFound);
    assert FeedAll(Reset(Fresh), FuncNoSpace, true) == v;
    LineEndInside(v);
  }

  /** With `stateEnd` corrected, "func f(){}" is recorded as a func, whole. */
  lemma FuncWithoutSpaceRecorded()
    ensures Scanned(Fresh, FuncNoSpace, false).found == NoneFound.(funcs := [FuncNoSpace])
    ensures Scanned(Fresh, FuncNoSpace, false).err == Nil
  {
    var d := FuncNoSpace;
    FuncHeaderScanned(false);
    BodyClosed();
    var v := Scan(End, Nil, 10, d, Fun, false, 0, NoneFound);
    assert LBrace in v.parseBuf by { assert v.parseBuf[8] == LBrace; }
    assert TrimSpace(d) == d by {
      assert TrimLeft(d) == d;
      assert TrimRight(d) == d;
    }
    EndRecords(v, LF);
  }
}
