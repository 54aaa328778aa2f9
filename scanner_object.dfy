/** The script scanner object of script/scanner.go, whose methods update its fields as the transition functions say. */
module ScannerObject {
  import opened Errors
  import opened Bytes
  import opened Scanner
  import opened ScannerKeywords
  import opened ScannerProperties

  /**
   * `scriptScanner`. With `asWritten` set, `stateEnd` is the one of
   * script/scanner.go; without it, the corrected one (see `StepEnd`).
   */
  class ScriptScanner {
    const asWritten: bool
    var step: StepFn
    var err: Status
    var bytes: nat
    var parseBuf: seq<byte>
    var bufType: BufType
    var bufInQuote: bool
    var bracketNum: int
    var imports: seq<seq<byte>>
    var funcs: seq<seq<byte>>
    var types: seq<seq<byte>>
    var consts: seq<seq<byte>>
    var vars: seq<seq<byte>>
    var lines: seq<seq<byte>>

    function State(): Scan
      reads this
    {
      Scan(step, err, bytes, parseBuf, bufType, bufInQuote, bracketNum, Found(imports, funcs, types, consts, vars, lines))
    }

    /** `scriptScanner{}`, ready to scan. */
    constructor (asWritten: bool)
      ensures State() == Fresh && this.asWritten == asWritten
    {
      this.asWritten := asWritten;
      step := Begin;
      err := Nil;
      bytes := 0;
      parseBuf := [];
      bufType := Unknown;
      bufInQuote := false;
      bracketNum := 0;
      imports, funcs, types, consts, vars, lines := [], [], [], [], [], [];
    }

    /** `init`. */
    method Init()
      modifies this
      ensures State() == Reset(old(State()))
    {
      step := Begin;
      err := Nil;
      bytes := 0;
      bufType := Unknown;
      bufInQuote := false;
      bracketNum := 0;
    }

    /** `s.error(c, context)`. */
    method Error(c: byte, context: string) returns (code: Code)
      modifies this
      ensures Stepped(State(), code) == Fail(old(State()), c, context)
    {
      step := ErrorStep;
      err := Errors.Error(ErrorMessage(c, context));
      return ScanError;
    }

    method StateBegin(kw: KeywordScanner, c: byte) returns (code: Code)
      requires kw.Ready()
      modifies this
      ensures Stepped(State(), code) == StepBegin(old(State()), c)
    {
      if c <= Space && IsSpace(c) {
        return SkipSpace;
      }
      if c == Hash {
        step := Comment;
        return Continue;
      }
      step := ParseLine;
      code := StateParseLine(kw, c);
    }

    /** `stateParseLine`. */
    method StateParseLine(kw: KeywordScanner, c: byte) returns (code: Code)
      requires kw.Ready()
      modifies this
      ensures Stepped(State(), code) == StepParseLine(old(State()), c)
    {
      if bufType == Unknown {
        code := ParseUnknown(kw, c);
      } else if bufInQuote {
        code := ParseQuoted(c);
      } else {
        code := ParseCode(c);
      }
    }

    /** `stateParseLine` before the kind of the statement is known. */
    method ParseUnknown(kw: KeywordScanner, c: byte) returns (code: Code)
      requires kw.Ready() && bufType == Unknown
      modifies this
      ensures Stepped(State(), code) == StepUnknown(old(State()), c)
    {
      if c == Space {
        bufType := kw.CheckKeyword(parseBuf);
      } else if c == Quote {
        bufInQuote := true;
        bufType := kw.CheckKeyword(parseBuf);
      } else if c == LParen || c == LBrace {
        bracketNum := bracketNum + 1;
        bufType := kw.CheckKeyword(parseBuf);
      } else if c == Colon || c == Equals {
        bufType := Line;
      }
      return AppendBuf;
    }

    /** `stateParseLine` inside quotes. */
    method ParseQuoted(c: byte) returns (code: Code)
      modifies this
      ensures Stepped(State(), code) == StepQuoted(old(State()), c)
    {
      if c == Quote {
        bufInQuote := false;
      } else if c == Backslash {
        step := Esc;
      }
      return AppendBuf;
    }

    /** `stateParseLine` outside quotes, once the kind is known. */
    method ParseCode(c: byte) returns (code: Code)
      modifies this
      ensures Stepped(State(), code) == StepCode(old(State()), c)
    {
      if c == Quote {
        bufInQuote := true;
      } else if c == LParen || c == LBrace {
        bracketNum := bracketNum + 1;
      } else if c == RParen || c == RBrace || c == CR || c == LF {
        if c == RParen || c == RBrace {
          bracketNum := bracketNum - 1;
        }
        if bracketNum == 0 {
          step := End;
        }
      }
      return AppendBuf;
    }

    /** The `switch` of `stateEnd` for a known kind: appends the trimmed buffer to the list of its kind. */
    method RecordLine()
      requires bufType != Unknown
      modifies this
      ensures State() == old(State()).(found := Record(old(State()).found, bufType, TrimSpace(parseBuf)))
    {
      var line := TrimSpace(parseBuf);
      match bufType {
        case Import => imports := imports + [line];
        case Fun => funcs := funcs + [line];
        case Type => types := types + [line];
        case Const => consts := consts + [line];
        case Var => vars := vars + [line];
        case Line => lines := lines + [line];
      }
    }

    /**
     * `stateEnd`. For a func without `{` yet, the code as written appends
     * the byte unseen; corrected, the byte goes on to `stateParseLine`.
     */
    method StateEnd(kw: KeywordScanner, c: byte) returns (code: Code)
      requires kw.Ready()
      modifies this
      ensures Stepped(State(), code) == if asWritten then StepEndAsWritten(old(State()), c) else StepEnd(old(State()), c)
    {
      if bufType == Unknown {
        code := Error(c, "unkown script line: " + Chars(parseBuf));
        return;
      }
      if bufType == Fun && LBrace !in parseBuf {
        step := ParseLine;
        if asWritten {
          return AppendBuf;
        }
        code := StateParseLine(kw, c);
        return;
      }
      ghost var s := State();
      RecordLine();
      parseBuf := [];
      bufType := Unknown;
      step := Begin;
      assert State() == Cleared(s, Record(s.found, s.bufType, TrimSpace(s.parseBuf)));
      code := StateBegin(kw, c);
    }

    method StateInStringEsc(c: byte) returns (code: Code)
      modifies this
      ensures Stepped(State(), code) == StepEsc(old(State()), c)
    {
      if IsSimpleEscape(c) {
        step := ParseLine;
        return AppendBuf;
      }
      if c == 117 {
        step := EscU(0);
        return AppendBuf;
      }
      code := Error(c, EscapeContext);
    }

    /** `stateInStringEscU`, `...U1`, `...U12` and `...U123`, after `k` hex digits. */
    method StateInStringEscU(k: nat, c: byte) returns (code: Code)
      modifies this
      ensures Stepped(State(), code) == StepEscU(old(State()), k, c)
    {
      if IsHex(c) {
        step := if k >= 3 then ParseLine else EscU(k + 1);
        return AppendBuf;
      }
      code := Error(c, HexContext);
    }

    method StateComment(c: byte) returns (code: Code)
      modifies this
      ensures Stepped(State(), code) == StepComment(old(State()), c)
    {
      if c == LF || c == CR {
        step := Begin;
      }
      return Continue;
    }

    /** `s.step(s, c)`. */
    method DoStep(kw: KeywordScanner, c: byte) returns (code: Code)
      requires kw.Ready()
      modifies this
      ensures Stepped(State(), code) == StepBy(old(State()), c, asWritten)
    {
      match step {
        case Begin => code := StateBegin(kw, c);
        case ParseLine => code := StateParseLine(kw, c);
        case End => code := StateEnd(kw, c);
        case Esc => code := StateInStringEsc(c);
        case EscU(k) => code := StateInStringEscU(k, c);
        case ErrorStep => code := ScanError;
        case Comment => code := StateComment(c);
      }
    }

    /** One byte of the loop in `checkValid`: count it, step, and append it when the step says so. */
    method FeedByte(kw: KeywordScanner, c: byte) returns (code: Code)
      requires kw.Ready()
      modifies this
      ensures Stepped(State(), code) == Feed(old(State()), c, asWritten)
    {
      ghost var s0 := State();
      ghost var s1 := Counted(s0);
      FeedUnfold(s0, c, asWritten);
      bytes := bytes + 1;
      assert State() == s1;
      code := DoStep(kw, c);
      ghost var r := Stepped(State(), code);
      assert r == StepBy(s1, c, asWritten);
      if code == AppendBuf {
        parseBuf := parseBuf + [c];
      }
      assert Stepped(State(), code) == Appended(r, c);
    }

    /**
     * `checkValid` on the bytes of the file: feeds every byte, appending
     * those the step asks for, and one `\n` after them; returns the first
     * error. The path check and the file read are outside the model.
     */
    method CheckValid(kw: KeywordScanner, data: seq<byte>) returns (e: Status)
      requires kw.Ready()
      modifies this
      ensures State() == Scanned(old(State()), data, asWritten)
      ensures e == (if State().step == ErrorStep then State().err else Nil)
    {
      Init();
      ghost var s0 := State();
      var i := 0;
      while i < |data|
        invariant 0 <= i <= |data|
        invariant step != ErrorStep
        invariant FeedAll(s0, data, asWritten) == FeedAll(State(), data[i..], asWritten)
      {
        ghost var before := State();
        FailureStops(before, data[i], asWritten);
        var code := FeedByte(kw, data[i]);
        assert data[i..][0] == data[i] && data[i..][1..] == data[i + 1..];
        if code == ScanError {
          assert FeedAll(before, data[i..], asWritten) == State();
          ScannedIs(old(State()), data, State(), asWritten);
          return err;
        }
        i := i + 1;
      }
      assert FeedAll(State(), data[i..], asWritten) == State();
      ghost var t := State();
      ScannedIs(old(State()), data, t, asWritten);
      StepFailureStops(t, LF);
      var code := DoStep(kw, LF);
      if code == ScanError {
        return err;
      }
      return Nil;
    }
  }
}
