/**
 * The build-script scanner (script/scanner.go): a byte-at-a-time state
 * machine that sorts the top-level statements of a script into imports,
 * funcs, types, consts, vars and plain lines, tracking quotes, the nesting
 * of `(`/`{` and the escapes of quoted strings (the string escapes of
 * section 7 of RFC 8259).
 *
 * Each `stateXxx` transition is specified by a function from the scanner's
 * fields and a byte to the new fields and a scan code; the class
 * `ScriptScanner` holds the fields and its methods update them as the
 * functions say.
 */
module Scanner {
  import opened Errors
  import opened Bytes


  /** The characters of a byte string, one per byte. */
  function Chars(b: seq<byte>): string {
    if b == [] then "" else [b[0] as int as char] + Chars(b[1..])
  }

  const Tab: byte := 9
  const LF: byte := 10
  const CR: byte := 13
  const Space: byte := 32
  const Quote: byte := 34
  const Hash: byte := 35
  const LParen: byte := 40
  const RParen: byte := 41
  const Slash: byte := 47
  const Colon: byte := 58
  const Equals: byte := 61
  const Backslash: byte := 92
  const LBrace: byte := 123
  const RBrace: byte := 125

  /** The kinds of statement, in the order of the `bufInXxx` constants. */
  datatype BufType = Unknown | Import | Type | Fun | Const | Var | Line

  /** The scan codes a step returns (`scanEnd` is declared but never returned). */
  datatype Code = Continue | SkipSpace | AppendBuf | ScanEnd | ScanError

  /** The `step` field: which `stateXxx` function handles the next byte. `EscU(k)` has read `k` hex digits after `\u`. */
  datatype StepFn = Begin | ParseLine | End | Esc | EscU(k: nat) | ErrorStep | Comment

  /** The statements found so far, by kind. */
  datatype Found = Found(imports: seq<seq<byte>>, funcs: seq<seq<byte>>, types: seq<seq<byte>>,
                         consts: seq<seq<byte>>, vars: seq<seq<byte>>, lines: seq<seq<byte>>)

  const NoneFound := Found([], [], [], [], [], [])

  /** The fields of a `scriptScanner`. */
  datatype Scan = Scan(step: StepFn, err: Status, bytes: nat, parseBuf: seq<byte>, bufType: BufType,
                       inQuote: bool, bracketNum: int, found: Found)

  /** The result of one transition. */
  datatype Stepped = Stepped(s: Scan, code: Code)

  // ---------------------------------------------------------------- keywords

  /** "import", "func", "type", "const" and "var". */
  const Keywords: seq<seq<byte>> := [[105, 109, 112, 111, 114, 116], [102, 117, 110, 99], [116, 121, 112, 101],
                                     [99, 111, 110, 115, 116], [118, 97, 114]]
  const KeywordTypes: seq<BufType> := [Import, Fun, Type, Const, Var]

  /** The length of the longest word, 0 for none. */
  function MaxLen(words: seq<seq<byte>>): (r: nat)
    ensures forall i :: 0 <= i < |words| ==> |words[i]| <= r
    ensures words != [] ==> exists i :: 0 <= i < |words| && |words[i]| == r
    ensures words == [] ==> r == 0
  {
    if words == [] then 0
    else
      var m := MaxLen(words[..|words| - 1]);
      if |words[|words| - 1]| > m then |words[|words| - 1]| else m
  }

  /** `maxWordLen` after `init` is 6, the length of "import". */
  lemma MaxWordLenIsSix()
    ensures MaxLen(Keywords) == 6
  {
    var k := Keywords;
    assert |k[0]| == 6 && |k[1]| == 4 && |k[2]| == 4 && |k[3]| == 5 && |k[4]| == 3;
  }

  /** The type `checkKeyword` gives a buffer: the kind paired with the keyword it equals, if it is no longer than the longest keyword. */
  function KeywordType(buf: seq<byte>): BufType {
    if |buf| > 6 then Line
    else if buf == Keywords[0] then Import
    else if buf == Keywords[1] then Fun
    else if buf == Keywords[2] then Type
    else if buf == Keywords[3] then Const
    else if buf == Keywords[4] then Var
    else Line
  }

  /** The keyword at `i` gets the kind at `i`, and a buffer that is no keyword is a plain line. */
  lemma KeywordTypePaired(buf: seq<byte>)
    ensures forall i :: 0 <= i < |Keywords| && buf == Keywords[i] ==> KeywordType(buf) == KeywordTypes[i]
    ensures buf !in Keywords ==> KeywordType(buf) == Line
    ensures KeywordType(buf) != Unknown
  {
  }

  /**
   * A buffer gets the kind paired with the keyword it equals ("import",
   * "func", "type", "const", "var"), and any other buffer, longer ones
   * included, is a plain line.
   */
  lemma KeywordTypeExact(buf: seq<byte>)
    ensures KeywordType(buf) == Import <==> buf == [105, 109, 112, 111, 114, 116]
    ensures KeywordType(buf) == Fun <==> buf == [102, 117, 110, 99]
    ensures KeywordType(buf) == Type <==> buf == [116, 121, 112, 101]
    ensures KeywordType(buf) == Const <==> buf == [99, 111, 110, 115, 116]
    ensures KeywordType(buf) == Var <==> buf == [118, 97, 114]
    ensures |buf| > 6 ==> KeywordType(buf) == Line
  {
  }

  // ---------------------------------------------------------------- transitions

  predicate IsSpace(c: byte) {
    c == Space || c == Tab || c == CR || c == LF
  }

  predicate IsHex(c: byte) {
    48 <= c <= 57 || 97 <= c <= 102 || 65 <= c <= 70
  }

  /** The bytes that may follow a backslash, besides `u`: b f n r t \ / ". */
  predicate IsSimpleEscape(c: byte) {
    c == 98 || c == 102 || c == 110 || c == 114 || c == 116 || c == Backslash || c == Slash || c == Quote
  }

  const EscapeContext := "in string escape code"
  const HexContext := "in \\u hexadecimal character escape"

  function ErrorMessage(c: byte, context: string): string {
    "invalid character '" + [c as int as char] + "' , Error : " + context
  }

  /** `s.error(c, context)`: the scanner stops in the error state. */
  function Fail(s: Scan, c: byte, context: string): Stepped {
    Stepped(s.(step := ErrorStep, err := Error(ErrorMessage(c, context))), ScanError)
  }

  /** `stateBegin`: skips blanks, starts a comment at `#`, and otherwise hands the byte to `stateParseLine`. */
  function StepBegin(s: Scan, c: byte): Stepped {
    if c <= Space && IsSpace(c) then Stepped(s, SkipSpace)
    else if c == Hash then Stepped(s.(step := Comment), Continue)
    else StepParseLine(s.(step := ParseLine), c)
  }

  /**
   * `stateParseLine`. Before the kind is known, a blank, a quote or an
   * opening bracket decides it from the buffer's first word, and `:` or
   * `=` makes it a plain line. Once known: inside quotes only the closing
   * quote and the backslash matter; outside, quotes and brackets are
   * tracked and a closing bracket or line end at depth 0 ends the
   * statement. Every byte is appended.
   */
  function StepParseLine(s: Scan, c: byte): Stepped {
    if s.bufType == Unknown then StepUnknown(s, c)
    else if s.inQuote then StepQuoted(s, c)
    else StepCode(s, c)
  }

  /** `stateParseLine` before the kind of the statement is known. */
  function StepUnknown(s: Scan, c: byte): Stepped {
    if c == Space then Stepped(s.(bufType := KeywordType(s.parseBuf)), AppendBuf)
    else if c == Quote then Stepped(s.(inQuote := true, bufType := KeywordType(s.parseBuf)), AppendBuf)
    else if c == LParen || c == LBrace then
      Stepped(s.(bracketNum := s.bracketNum + 1, bufType := KeywordType(s.parseBuf)), AppendBuf)
    else if c == Colon || c == Equals then Stepped(s.(bufType := Line), AppendBuf)
    else Stepped(s, AppendBuf)
  }

  /** `stateParseLine` inside quotes. */
  function StepQuoted(s: Scan, c: byte): Stepped {
    if c == Quote then Stepped(s.(inQuote := false), AppendBuf)
    else if c == Backslash then Stepped(s.(step := Esc), AppendBuf)
    else Stepped(s, AppendBuf)
  }

  /** `stateParseLine` outside quotes, once the kind is known. */
  function StepCode(s: Scan, c: byte): Stepped {
    if c == Quote then Stepped(s.(inQuote := true), AppendBuf)
    else if c == LParen || c == LBrace then Stepped(s.(bracketNum := s.bracketNum + 1), AppendBuf)
    else if c == RParen || c == RBrace || c == CR || c == LF then
      var n := if c == RParen || c == RBrace then s.bracketNum - 1 else s.bracketNum;
      if n == 0 then Stepped(s.(bracketNum := n, step := End), AppendBuf)
      else Stepped(s.(bracketNum := n), AppendBuf)
    else Stepped(s, AppendBuf)
  }

  /** The leading and trailing blanks `strings.TrimSpace` removes from a byte string. */
  predicate IsTrimmed(c: byte) {
    c == Space || 9 <= c <= 13
  }

  /** `strings.TrimSpace` on a byte string. */
  function TrimSpace(b: seq<byte>): seq<byte> {
    TrimRight(TrimLeft(b))
  }

  function TrimLeft(b: seq<byte>): seq<byte> {
    if b != [] && IsTrimmed(b[0]) then TrimLeft(b[1..]) else b
  }

  function TrimRight(b: seq<byte>): seq<byte> {
    if b != [] && IsTrimmed(b[|b| - 1]) then TrimRight(b[..|b| - 1]) else b
  }

  /** The statement `line` of kind `t` added to its list; only the five kinds with a list change anything. */
  function Record(f: Found, t: BufType, line: seq<byte>): Found {
    match t
    case Import => f.(imports := f.imports + [line])
    case Fun => f.(funcs := f.funcs + [line])
    case Type => f.(types := f.types + [line])
    case Const => f.(consts := f.consts + [line])
    case Var => f.(vars := f.vars + [line])
    case Line => f.(lines := f.lines + [line])
    case Unknown => f
  }

  /** The scanner ready for the next statement, with an empty buffer of unknown kind. */
  function Cleared(s: Scan, f: Found): Scan {
    s.(found := f, parseBuf := [], bufType := Unknown, step := Begin)
  }

  /**
   * `stateEnd`, as the code evidently intends: records the trimmed buffer
   * in the list of its kind and hands the byte to `stateBegin`; a buffer of
   * unknown kind is an error; a func without `{` yet is not finished, and
   * the byte goes on to `stateParseLine`.
   */
  function StepEnd(s: Scan, c: byte): Stepped {
    if s.bufType == Unknown then Fail(s, c, "unkown script line: " + Chars(s.parseBuf))
    else if s.bufType == Fun && LBrace !in s.parseBuf then StepParseLine(s.(step := ParseLine), c)
    else StepBegin(Cleared(s, Record(s.found, s.bufType, TrimSpace(s.parseBuf))), c)
  }

  /**
   * `stateEnd` as written: for a func without `{` yet it switches to
   * `stateParseLine` but appends the byte without letting `stateParseLine`
   * see it, so a `{` or `(` there is not counted.
   */
  function StepEndAsWritten(s: Scan, c: byte): Stepped {
    if s.bufType == Fun && LBrace !in s.parseBuf then Stepped(s.(step := ParseLine), AppendBuf)
    else StepEnd(s, c)
  }

  /** `stateInStringEsc`. */
  function StepEsc(s: Scan, c: byte): Stepped {
    if IsSimpleEscape(c) then Stepped(s.(step := ParseLine), AppendBuf)
    else if c == 117 then Stepped(s.(step := EscU(0)), AppendBuf)
    else Fail(s, c, EscapeContext)
  }

  /** `stateInStringEscU`, `...U1`, `...U12` and `...U123`: four hex digits, then back to the string. */
  function StepEscU(s: Scan, k: nat, c: byte): Stepped {
    if IsHex(c) then Stepped(s.(step := if k >= 3 then ParseLine else EscU(k + 1)), AppendBuf)
    else Fail(s, c, HexContext)
  }

  /** `stateComment`: skips to the end of the line. */
  function StepComment(s: Scan, c: byte): Stepped {
    if c == LF || c == CR then Stepped(s.(step := Begin), Continue) else Stepped(s, Continue)
  }

  /** `s.step(s, c)`, with the corrected `stateEnd`. */
  function Step(s: Scan, c: byte): Stepped {
    match s.step
    case Begin => StepBegin(s, c)
    case ParseLine => StepParseLine(s, c)
    case End => StepEnd(s, c)
    case Esc => StepEsc(s, c)
    case EscU(k) => StepEscU(s, k, c)
    case ErrorStep => Stepped(s, ScanError)
    case Comment => StepComment(s, c)
  }

  /** `s.step(s, c)` with `stateEnd` as written. */
  function StepAsWritten(s: Scan, c: byte): Stepped {
    if s.step == End then StepEndAsWritten(s, c) else Step(s, c)
  }

  /** The step, corrected or as written. */
  function StepBy(s: Scan, c: byte, asWritten: bool): Stepped {
    if asWritten then StepAsWritten(s, c) else Step(s, c)
  }

  /** The state with one more byte counted. */
  function Counted(s: Scan): Scan {
    s.(bytes := s.bytes + 1)
  }

  /** One byte of the loop in `checkValid`: count it, step, and append it when the step says so. */
  function Feed(s: Scan, c: byte, asWritten: bool): Stepped {
    Appended(StepBy(Counted(s), c, asWritten), c)
  }

  /** The byte appended to the buffer when the step asks for it. */
  function Appended(st: Stepped, c: byte): Stepped {
    if st.code == AppendBuf then Stepped(st.s.(parseBuf := st.s.parseBuf + [c]), AppendBuf) else st
  }

  /** The loop in `checkValid` over the data: stops at the first error. */
  function FeedAll(s: Scan, data: seq<byte>, asWritten: bool): Scan
    decreases |data|
  {
    if data == [] then s
    else
      var st := Feed(s, data[0], asWritten);
      if st.code == ScanError then st.s else FeedAll(st.s, data[1..], asWritten)
  }

  /** `init`: the fields it resets; the buffer and the lists are kept. */
  function Reset(s: Scan): Scan {
    s.(step := Begin, err := Nil, bytes := 0, bufType := Unknown, inQuote := false, bracketNum := 0)
  }

  /** The scanner after `checkValid` on `data`: the loop, then one more `\n` unless it failed. */
  function Scanned(s: Scan, data: seq<byte>, asWritten: bool): Scan {
    var t := FeedAll(Reset(s), data, asWritten);
    if t.step == ErrorStep then t
    else if asWritten then StepAsWritten(t, LF).s
    else Step(t, LF).s
  }

  /** Proof scaffolding, not a property: `Scanned` once the loop has reached `t`, one step of its definition. */
  lemma ScannedIs(s: Scan, data: seq<byte>, t: Scan, asWritten: bool)
    requires FeedAll(Reset(s), data, asWritten) == t
    ensures Scanned(s, data, asWritten) == if t.step == ErrorStep then t else StepBy(t, LF, asWritten).s
  {
  }

  /** A fresh `scriptScanner{}`. */
  const Fresh := Scan(Begin, Nil, 0, [], Unknown, false, 0, NoneFound)

}
