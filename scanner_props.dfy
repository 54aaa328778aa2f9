/** Properties of the transitions of the build-script scanner (script/scanner.go). */
module ScannerProperties {
  import opened Errors
  import opened Bytes
  import opened Scanner

  /** A transition fails exactly when it enters the error state, and sets the error exactly then. */
  predicate Sound(r: Stepped) {
    (r.code == ScanError <==> r.s.step == ErrorStep) && (r.s.err.Error? <==> r.code == ScanError)
  }

  /**
   * A transition never adds to the buffer: it keeps it or, having recorded
   * the statement, empties it; nor does it count bytes.
   */
  predicate Kept(s: Scan, r: Stepped) {
    (r.s.parseBuf == s.parseBuf || r.s.parseBuf == []) && r.s.bytes == s.bytes
  }

  /** `stateParseLine` never fails and only switches to the escape or end state. */
  lemma ParseLineFacts(s: Scan, c: byte)
    ensures var r := StepParseLine(s, c);
      && r.code == AppendBuf && r.s.err == s.err && r.s.parseBuf == s.parseBuf && r.s.bytes == s.bytes
      && (r.s.step == s.step || r.s.step == Esc || r.s.step == End)
  {
  }

  /** `stateBegin` never fails. */
  lemma BeginFacts(s: Scan, c: byte)
    requires s.step != ErrorStep
    ensures var r := StepBegin(s, c);
      && r.code != ScanError && r.s.err == s.err && r.s.step != ErrorStep
      && r.s.parseBuf == s.parseBuf && r.s.bytes == s.bytes
  {
    ParseLineFacts(s.(step := ParseLine), c);
  }

  /** `stateEnd`, corrected and as written, fails only for a buffer of unknown kind. */
  lemma EndFacts(s: Scan, c: byte)
    requires s.step == End
    ensures Kept(s, StepEnd(s, c)) && Kept(s, StepEndAsWritten(s, c))
    ensures s.err == Nil ==> Sound(StepEnd(s, c)) && Sound(StepEndAsWritten(s, c))
  {
    ParseLineFacts(s.(step := ParseLine), c);
    if s.bufType != Unknown {
      var f := Record(s.found, s.bufType, TrimSpace(s.parseBuf));
      BeginFacts(Cleared(s, f), c);
    }
  }

  /** Every transition keeps or empties the buffer. */
  lemma StepKeeps(s: Scan, c: byte)
    ensures Kept(s, Step(s, c)) && Kept(s, StepAsWritten(s, c))
  {
    match s.step
    case Begin => BeginFacts(s, c);
    case ParseLine => ParseLineFacts(s, c);
    case End => EndFacts(s, c);
    case _ =>
  }

  /** A step fails exactly when it leaves the scanner in the error state, and only then sets the error. */
  lemma StepErrorIff(s: Scan, c: byte)
    requires s.step != ErrorStep && s.err == Nil
    ensures Sound(Step(s, c)) && Sound(StepAsWritten(s, c))
  {
    match s.step
    case Begin => BeginFacts(s, c);
    case ParseLine => ParseLineFacts(s, c);
    case End => EndFacts(s, c);
    case _ =>
  }

  /** Outside the error state, a step fails exactly when it enters the error state. */
  lemma StepFailureStops(s: Scan, c: byte)
    requires s.step != ErrorStep
    ensures Step(s, c).code == ScanError <==> Step(s, c).s.step == ErrorStep
    ensures StepAsWritten(s, c).code == ScanError <==> StepAsWritten(s, c).s.step == ErrorStep
  {
    match s.step
    case Begin => BeginFacts(s, c);
    case ParseLine => ParseLineFacts(s, c);
    case End => EndFacts(s, c);
    case _ =>
  }

  /** Appending the byte changes neither the code nor the state of a step. */
  lemma AppendedKeepsStep(r: Stepped, c: byte)
    ensures Appended(r, c).code == r.code && Appended(r, c).s.step == r.s.step
  {
  }

  /** Proof scaffolding, not a property: one step of `Feed`'s definition (count, step, append when asked). */
  lemma FeedUnfold(s: Scan, c: byte, asWritten: bool)
    ensures Feed(s, c, asWritten) == Appended(StepBy(Counted(s), c, asWritten), c)
  {
  }

  /** Outside the error state, a byte fails exactly when it leaves the scanner in the error state. */
  lemma FailureStops(s: Scan, c: byte, asWritten: bool)
    requires s.step != ErrorStep
    ensures Feed(s, c, asWritten).code == ScanError <==> Feed(s, c, asWritten).s.step == ErrorStep
  {
    var s1 := Counted(s);
    StepFailureStops(s1, c);
    if asWritten {
      AppendedKeepsStep(StepAsWritten(s1, c), c);
      assert Feed(s, c, true) == Appended(StepAsWritten(s1, c), c);
    } else {
      AppendedKeepsStep(Step(s1, c), c);
      assert Feed(s, c, false) == Appended(Step(s1, c), c);
    }
  }

  /** In the error state every byte is an error and nothing changes. */
  lemma ErrorIsSticky(s: Scan, c: byte, asWritten: bool)
    requires s.step == ErrorStep
    ensures Feed(s, c, asWritten) == Stepped(s.(bytes := s.bytes + 1), ScanError)
  {
  }

  /** Blanks before a statement are skipped and not appended. */
  lemma BlanksSkipped(s: Scan, c: byte)
    requires s.step == Begin
    ensures IsSpace(c) ==> Step(s, c) == Stepped(s, SkipSpace)
    ensures c == Hash ==> Step(s, c) == Stepped(s.(step := Comment), Continue)
    ensures !IsSpace(c) && c != Hash ==> Step(s, c).code == AppendBuf
  {
  }

  /** A comment consumes every byte up to the line end without appending any. */
  lemma CommentAppendsNothing(s: Scan, c: byte)
    requires s.step == Comment
    ensures Step(s, c).code == Continue
    ensures Step(s, c).s == (if c == LF || c == CR then s.(step := Begin) else s)
  {
  }

  /**
   * Outside quotes, once the kind is known, `(`/`{` count up and `)`/`}`
   * count down, and a statement ends at a closing bracket or line end only
   * at depth 0.
   */
  lemma BracketsTracked(s: Scan, c: byte)
    requires s.step == ParseLine && s.bufType != Unknown && !s.inQuote
    ensures var r := Step(s, c).s;
      && Step(s, c).code == AppendBuf
      && (c == LParen || c == LBrace ==> r.bracketNum == s.bracketNum + 1 && r.step == ParseLine)
      && (c == RParen || c == RBrace ==> r.bracketNum == s.bracketNum - 1 && (r.step == End <==> s.bracketNum == 1))
      && (c == CR || c == LF ==> r.bracketNum == s.bracketNum && (r.step == End <==> s.bracketNum == 0))
      && (c != Quote ==> r.inQuote == s.inQuote)
      && (c == Quote ==> r.inQuote && r.bracketNum == s.bracketNum)
  {
  }

  /** Inside quotes only the closing quote and the backslash do anything. */
  lemma QuotesTracked(s: Scan, c: byte)
    requires s.step == ParseLine && s.bufType != Unknown && s.inQuote
    ensures var r := Step(s, c).s;
      && Step(s, c).code == AppendBuf && r.bracketNum == s.bracketNum
      && (c == Quote ==> !r.inQuote && r.step == ParseLine)
      && (c == Backslash ==> r.inQuote && r.step == Esc)
      && (c != Quote && c != Backslash ==> r == s)
  {
  }

  /** After a backslash in a string: one of b f n r t \ / " returns to the string, `u` asks for hex digits, anything else fails. */
  lemma EscapeChecked(s: Scan, c: byte)
    requires s.step == Esc
    ensures Step(s, c).code == ScanError <==> !IsSimpleEscape(c) && c != 117
    ensures IsSimpleEscape(c) ==> Step(s, c).s.step == ParseLine
    ensures c == 117 ==> Step(s, c).s.step == EscU(0)
    ensures Step(s, c).code == ScanError ==> Step(s, c).s.err == Error(ErrorMessage(c, EscapeContext))
  {
  }

  /** Feeds the bytes in turn while no step fails. */
  function Steps(s: Scan, data: seq<byte>): Scan
    decreases |data|
  {
    if data == [] then s
    else
      var st := Step(s, data[0]);
      if st.code == ScanError then st.s else Steps(st.s, data[1..])
  }

  /** A `\u` escape needs exactly four hex digits: after them the string goes on; a non-hex digit fails. */
  lemma {:induction false} UnicodeEscape(s: Scan, k: nat, hex: seq<byte>)
    requires s.step == EscU(k) && k <= 3 && |hex| == 4 - k
    ensures (forall i :: 0 <= i < |hex| ==> IsHex(hex[i])) <==> Steps(s, hex).step == ParseLine
    ensures (exists i :: 0 <= i < |hex| && !IsHex(hex[i])) <==> Steps(s, hex).step == ErrorStep
    decreases |hex|
  {
    var st := Step(s, hex[0]);
    if IsHex(hex[0]) {
      if k < 3 {
        UnicodeEscape(st.s, k + 1, hex[1..]);
        assert forall i :: 1 <= i < |hex| ==> hex[i] == hex[1..][i - 1];
      } else {
        assert hex[1..] == [];
      }
    }
  }

  /** The statement kind is decided once: a known kind stays until the statement is recorded. */
  lemma KindDecidedOnce(s: Scan, c: byte)
    requires s.step == ParseLine && s.bufType != Unknown
    ensures Step(s, c).s.bufType == s.bufType && Step(s, c).s.found == s.found && Step(s, c).s.parseBuf == s.parseBuf
  {
  }

  /** The list of statements of kind `t`; none for an unknown kind. */
  function List(f: Found, t: BufType): seq<seq<byte>> {
    match t
    case Import => f.imports
    case Fun => f.funcs
    case Type => f.types
    case Const => f.consts
    case Var => f.vars
    case Line => f.lines
    case Unknown => []
  }

  /** Recording a statement appends it to the list of its kind and leaves the other lists alone. */
  lemma RecordAppends(f: Found, t: BufType, line: seq<byte>)
    requires t != Unknown
    ensures List(Record(f, t, line), t) == List(f, t) + [line]
    ensures forall u :: u != t ==> List(Record(f, t, line), u) == List(f, u)
  {
  }

  /**
   * `stateEnd` records the trimmed buffer in the list of its kind,
   * clears the buffer and hands the byte to `stateBegin`; a buffer of
   * unknown kind is an error; an unfinished func keeps parsing.
   */
  lemma EndRecords(s: Scan, c: byte)
    requires s.step == End
    ensures s.bufType == Unknown ==> Step(s, c).code == ScanError && Step(s, c).s.found == s.found
    ensures s.bufType == Fun && LBrace !in s.parseBuf ==>
      Step(s, c).code == AppendBuf && Step(s, c).s.found == s.found && Step(s, c).s.parseBuf == s.parseBuf
    ensures s.bufType != Unknown && !(s.bufType == Fun && LBrace !in s.parseBuf) ==>
      var f := Record(s.found, s.bufType, TrimSpace(s.parseBuf));
      && Step(s, c) == StepBegin(Cleared(s, f), c)
      && Step(s, c).s.found == f && Step(s, c).s.parseBuf == [] && Step(s, c).code != ScanError
  {
    assert Step(s, c) == StepEnd(s, c);
    ParseLineFacts(s.(step := ParseLine), c);
    if s.bufType != Unknown {
      var f := Record(s.found, s.bufType, TrimSpace(s.parseBuf));
      BeginFacts(Cleared(s, f), c);
    }
  }

  /** `TrimLeft` drops exactly the leading blanks. */
  lemma {:induction false} TrimLeftFacts(b: seq<byte>)
    ensures var r := TrimLeft(b);
      && |r| <= |b| && r == b[|b| - |r|..]
      && (r != [] ==> !IsTrimmed(r[0]))
      && forall i :: 0 <= i < |b| - |r| ==> IsTrimmed(b[i])
  {
    if b != [] && IsTrimmed(b[0]) {
      TrimLeftFacts(b[1..]);
    }
  }

  /** `TrimRight` drops exactly the trailing blanks. */
  lemma {:induction false} TrimRightFacts(b: seq<byte>)
    ensures var r := TrimRight(b);
      && |r| <= |b| && r == b[..|r|]
      && (r != [] ==> !IsTrimmed(r[|r| - 1]))
      && forall i :: |r| <= i < |b| ==> IsTrimmed(b[i])
  {
    if b != [] && IsTrimmed(b[|b| - 1]) {
      TrimRightFacts(b[..|b| - 1]);
    }
  }

  /** A recorded statement has no blank at either end, and is the buffer without its blank ends. */
  lemma {:induction false} TrimSpaceFacts(b: seq<byte>)
    ensures var r := TrimSpace(b);
      && (r != [] ==> !IsTrimmed(r[0]) && !IsTrimmed(r[|r| - 1]))
      && (exists i, j :: 0 <= i <= j <= |b| && r == b[i..j])
      && TrimSpace(r) == r
  {
    var l := TrimLeft(b);
    var r := TrimRight(l);
    TrimLeftFacts(b);
    TrimRightFacts(l);
    assert r == b[|b| - |l|..][..|r|];
    assert r == b[|b| - |l|..|b| - |l| + |r|];
    if r != [] {
      assert r[0] == l[0];
    }
    assert TrimLeft(r) == r;
    assert TrimRight(r) == r;
  }

  /**
   * Only a byte whose step returns `AppendBuf` is appended, to the buffer
   * as it was or as `stateEnd` emptied it; the byte counter counts every
   * byte fed.
   */
  predicate AppendsOnly(s: Scan, c: byte, st: Stepped) {
    && st.s.bytes == s.bytes + 1
    && (st.code == AppendBuf ==> st.s.parseBuf == s.parseBuf + [c] || st.s.parseBuf == [c])
    && (st.code != AppendBuf ==> st.s.parseBuf == s.parseBuf || st.s.parseBuf == [])
  }

  lemma FeedAppends(s: Scan, c: byte, asWritten: bool)
    ensures AppendsOnly(s, c, Feed(s, c, asWritten))
  {
    var s1 := Counted(s);
    StepKeeps(s1, c);
    AppendedFacts(s, s1, StepBy(s1, c, asWritten), c);
  }

  lemma AppendedFacts(s: Scan, s1: Scan, r: Stepped, c: byte)
    requires s1.bytes == s.bytes + 1 && s1.parseBuf == s.parseBuf && Kept(s1, r)
    ensures AppendsOnly(s, c, Appended(r, c))
  {
  }
}
