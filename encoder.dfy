/**
  The assembler as a specification: what one source line does to the assembly state
  (`Step`), the left-to-right fold over the lines of a source text (`Run`), and the
  assembled result (`Assemble`). The imperative assembler in module Assembler is proved
  to compute exactly this; module EncoderFacts proves what the assembler promises.
 */
module Encoder {
  import opened Results
  import opened Strings
  import opened Numerals
  import opened Opcodes
  import opened Symbols
  import opened CodeLines
  import opened Errors
  import opened Immediates
  import opened LineSyntax

  /** The origin assumed until a `.ORIGIN` directive sets one. */
  const DefaultOrigin: nat := 16

  /** The symbol under which `.ORIGIN` records the origin. */
  const OriginSymbol: string := "SPELL_ORIGIN"

  /** The variables the assembler carries from line to line. */
  datatype AsmState = AsmState(lineNumber: nat, offset: nat, origin: Number, symbols: Table, code: seq<Entry>)

  const Initial: AsmState := AsmState(0, 0, Int(DefaultOrigin), [], [])

  /** The assembler's invariant: `offset` counts the byte slots of `code`, and every name is bound once. */
  predicate Good(s: AsmState) {
    s.offset == ByteCount(s.code) && UniqueKeys(s.symbols)
  }

  /** The result record `{origin, code, defines}`. */
  datatype Program = Program(origin: Number, code: seq<Entry>, defines: seq<string>)

  /** The branches of the assembler's `if` chain, in the order it tries them. */
  datatype Kind =
    | NoCommand                        // an empty or comment-only line
    | OriginDirective                  // `.ORIGIN`
    | ConstDirective                   // `CONST`
    | PushOp                           // `PUSH`
    | CallOp(exchange: bool)           // `CALL1`, or `CALLX` when `exchange`
    | StopOp                           // `STOP`
    | OneOperandOp(op: char)           // a key of `oneOperand`
    | SimpleOp(op: char)               // a key of `simple`
    | LabelDef                         // `:name`
    | Unknown

  /** Which branch an upper-cased mnemonic takes. */
  function Classify(cmd: string): (k: Kind)
    ensures k == NoCommand <==> cmd == []
    ensures k == LabelDef ==> cmd[0] == ':'
  {
    if cmd == "" then NoCommand
    else if cmd == ".ORIGIN" then OriginDirective
    else if cmd == "CONST" then ConstDirective
    else if cmd == "PUSH" then PushOp
    else if cmd == "CALL1" then CallOp(false)
    else if cmd == "CALLX" then CallOp(true)
    else if cmd == "STOP" then StopOp
    else if OneOperandCode(cmd).Some? then OneOperandOp(OneOperandCode(cmd).value)
    else if SimpleCode(cmd).Some? then SimpleOp(SimpleCode(cmd).value)
    else if cmd[0] == ':' then LabelDef
    else Unknown
  }

  /** A tokenized source line: its parts, its upper-cased mnemonic `cmd`, and the branch it takes. */
  datatype SourceLine = SourceLine(parts: Parts, cmd: string, kind: Kind)

  /** The per-line work that does not depend on the state: trimming, comment, mnemonic, arguments. */
  function Parse(line: string): (l: SourceLine)
    ensures l.parts == Tokenize(line)
    ensures l.cmd == Mnemonic(line) && l.kind == Classify(l.cmd)
  {
    var p := Tokenize(line);
    var cmd := ToUpper(p.cmdOrig);
    SourceLine(p, cmd, Classify(cmd))
  }

  function ParseAll(lines: seq<string>): (ls: seq<SourceLine>)
    ensures |ls| == |lines|
    ensures forall i | 0 <= i < |lines| :: ls[i] == Parse(lines[i])
  {
    seq(|lines|, i requires 0 <= i < |lines| => Parse(lines[i]))
  }

  /** A `CALL1` line that reaches the exchange of the last two code entries. */
  predicate IsCall1(l: SourceLine) {
    l.kind == CallOp(false) && 1 <= |l.parts.args| <= 2
  }

  /** The directives that never push a code entry. */
  predicate PushesNothing(l: SourceLine) {
    l.kind == OriginDirective || l.kind == ConstDirective
  }

  /**
    No `CALL1` comes before the first line that pushes a code entry. A `CALL1` as the very
    first entry makes the source exchange `code[0]` with the nonexistent `code[-1]`; that case
    is excluded rather than modelled.
   */
  predicate NoLeadingCall1(ls: seq<SourceLine>) {
    ls == [] || (!IsCall1(ls[0]) && (PushesNothing(ls[0]) ==> NoLeadingCall1(ls[1..])))
  }

  /** The padding argument of a `CALL1`/`CALLX`: `parseInt(args[1], 10)`, or 0 when absent. */
  function PaddingOf(p: Parts): Number {
    if |p.args| == 2 then ParseDecimal(p.args[1]) else Int(0)
  }

  /** How often `for (let i = 0; i < padding; i++)` runs: never for NaN. */
  function PadCount(padding: Number): nat {
    if padding.Int? then padding.n else 0
  }

  /** The marker a line without a mnemonic pushes. */
  function MarkerFor(comment: string): Entry {
    if comment != "" then Comment(Trim(comment)) else Blank
  }

  /** JavaScript's `s.substring(1)`: everything after the first character, and "" for "". */
  function SubstringFrom1(s: string): string {
    if s == [] then [] else s[1..]
  }

  /** The state with the line counter advanced to the line being assembled. */
  function Next(s: AsmState): AsmState {
    AsmState(s.lineNumber + 1, s.offset, s.origin, s.symbols, s.code)
  }

  /** The effect of one source line on the state, or the error it throws. */
  function Step(s: AsmState, l: SourceLine): (r: Result<AsmState, AsmError>)
    requires |s.code| > 0 || !IsCall1(l)
    ensures r.Ok? ==> r.value.lineNumber == s.lineNumber + 1
    ensures r.Ok? ==> |r.value.code| >= |s.code|
    ensures r.Ok? && !PushesNothing(l) ==> |r.value.code| > |s.code|
    ensures r.Ok? && PushesNothing(l) ==> r.value.code == s.code
    ensures r.Err? ==> r.error.line == s.lineNumber + 1
  {
    var t := Next(s);
    var p := l.parts;
    match l.kind
    case NoCommand => MarkerStep(t, p)
    case OriginDirective => OriginStep(t, p)
    case ConstDirective => ConstStep(t, p, l.cmd)
    case PushOp => PushStep(t, p, l.cmd)
    case CallOp(exchange) => CallStep(t, p, l.cmd, exchange)
    case StopOp => StopStep(t, p)
    case OneOperandOp(op) => OneOperandStep(t, p, l.cmd, op)
    case SimpleOp(op) => SimpleStep(t, p, l.cmd, op)
    case LabelDef => LabelStep(t, p)
    case Unknown => Err(AsmError(t.lineNumber, UnknownCommand(l.cmd)))
  }

  /** A line without a mnemonic: a blank or comment marker. */
  function MarkerStep(s: AsmState, p: Parts): (r: Result<AsmState, AsmError>)
    ensures r.Ok? && r.value.lineNumber == s.lineNumber
    ensures r.Ok? && r.value.code == s.code + [MarkerFor(p.comment)]
  {
    Ok(AsmState(s.lineNumber, s.offset, s.origin, s.symbols, s.code + [MarkerFor(p.comment)]))
  }

  /** `.ORIGIN n`: sets the origin (NaN without an argument) and records it as `SPELL_ORIGIN`. */
  function OriginStep(s: AsmState, p: Parts): (r: Result<AsmState, AsmError>)
    ensures r.Ok? && r.value.lineNumber == s.lineNumber
    ensures r.Ok? && r.value.code == s.code
  {
    var origin := if |p.args| > 0 then ParseNumeral(p.args[0]) else NaN;
    Ok(AsmState(s.lineNumber, s.offset, origin, Bind(s.symbols, OriginSymbol, NumberText(origin)), s.code))
  }

  /** `CONST name value`: binds a name not bound before. */
  function ConstStep(s: AsmState, p: Parts, cmd: string): (r: Result<AsmState, AsmError>)
    ensures r.Ok? ==> r.value.lineNumber == s.lineNumber
    ensures r.Ok? ==> r.value.code == s.code
    ensures r.Err? ==> r.error.line == s.lineNumber
  {
    if |p.args| != 2 then Err(AsmError(s.lineNumber, ArgCount(cmd)))
    else if Lookup(s.symbols, p.args[0]).Some? then Err(AsmError(s.lineNumber, AlreadyDefined(p.args[0])))
    else Ok(AsmState(s.lineNumber, s.offset, s.origin, Bind(s.symbols, p.args[0], p.args[1]), s.code))
  }

  /** `PUSH v`: one byte slot holding the immediate, carrying the comment. */
  function PushStep(s: AsmState, p: Parts, cmd: string): (r: Result<AsmState, AsmError>)
    ensures r.Ok? ==> r.value.lineNumber == s.lineNumber
    ensures r.Ok? ==> |r.value.code| == |s.code| + 1
    ensures r.Err? ==> r.error.line == s.lineNumber
  {
    if |p.args| != 1 then Err(AsmError(s.lineNumber, ArgCount(cmd)))
    else
      match Immediate(p.args[0], s.symbols)
      case Err(k) => Err(AsmError(s.lineNumber, k))
      case Ok(v) => Ok(AsmState(s.lineNumber, s.offset + 1, s.origin, s.symbols, s.code + [Byte(v, p.comment)]))
  }

  /** `STOP`: the byte `0xff`; its arguments are not looked at. */
  function StopStep(s: AsmState, p: Parts): (r: Result<AsmState, AsmError>)
    ensures r.Ok? && r.value.lineNumber == s.lineNumber
    ensures r.Ok? && |r.value.code| == |s.code| + 1
  {
    Ok(AsmState(s.lineNumber, s.offset + 1, s.origin, s.symbols, s.code + [Byte(Literal("0xff"), p.comment)]))
  }

  /** A one-operand instruction: an optional immediate without comment, then the opcode with it. */
  function OneOperandStep(s: AsmState, p: Parts, cmd: string, op: char): (r: Result<AsmState, AsmError>)
    ensures r.Ok? ==> r.value.lineNumber == s.lineNumber
    ensures r.Ok? ==> |r.value.code| > |s.code|
    ensures r.Err? ==> r.error.line == s.lineNumber
  {
    var opcode := Byte(OpChar(op), p.comment);
    if |p.args| > 1 then Err(AsmError(s.lineNumber, TooManyArgs(cmd)))
    else if |p.args| == 1 then
      match Immediate(p.args[0], s.symbols)
      case Err(k) => Err(AsmError(s.lineNumber, k))
      case Ok(v) => Ok(AsmState(s.lineNumber, s.offset + 2, s.origin, s.symbols, s.code + [Byte(v, ""), opcode]))
    else Ok(AsmState(s.lineNumber, s.offset + 1, s.origin, s.symbols, s.code + [opcode]))
  }

  /**
    An instruction without operands. The source emits the opcode before it rejects arguments;
    the emitted slot is lost with the error.
   */
  function SimpleStep(s: AsmState, p: Parts, cmd: string, op: char): (r: Result<AsmState, AsmError>)
    ensures r.Ok? ==> r.value.lineNumber == s.lineNumber
    ensures r.Ok? ==> |r.value.code| == |s.code| + 1
    ensures r.Err? ==> r.error.line == s.lineNumber
  {
    if |p.args| > 0 then Err(AsmError(s.lineNumber, TooManyArgs(cmd)))
    else Ok(AsmState(s.lineNumber, s.offset + 1, s.origin, s.symbols, s.code + [Byte(OpChar(op), p.comment)]))
  }

  /** `:name`: binds `LABEL_name` to `offset + origin` unless that value is an opcode's code. */
  function LabelStep(s: AsmState, p: Parts): (r: Result<AsmState, AsmError>)
    ensures r.Ok? ==> r.value.lineNumber == s.lineNumber
    ensures r.Ok? ==> r.value.code == s.code + [Comment(p.trimmed)]
    ensures r.Err? ==> r.error.line == s.lineNumber
  {
    var name := SubstringFrom1(p.cmdOrig);
    var value := Add(Int(s.offset), s.origin);
    if IsReservedCode(CharCode(value)) then Err(AsmError(s.lineNumber, LabelIsOpcode(value, name)))
    else Ok(AsmState(s.lineNumber, s.offset, s.origin, Bind(s.symbols, "LABEL_" + name, NumberText(value)),
                     s.code + [Comment(p.trimmed)]))
  }

  /**
    The calling sequence of `CALL1`/`CALLX`, in final order: for `CALLX` an exchange opcode;
    the return address moved before the entry that preceded it; the target; the jump opcode;
    and the padding. The return address is computed as `offset + 3 + origin + padding`, with
    `offset` taken after the exchange opcode.
   */
  function CallStep(s: AsmState, p: Parts, cmd: string, exchange: bool): (r: Result<AsmState, AsmError>)
    requires exchange || |s.code| > 0 || !(1 <= |p.args| <= 2)
    ensures r.Ok? ==> r.value.lineNumber == s.lineNumber && |r.value.code| >= |s.code| + 3
    ensures r.Err? ==> r.error.line == s.lineNumber
  {
    var n := s.lineNumber;
    if |p.args| < 1 || |p.args| > 2 then Err(AsmError(n, ArgCount(cmd)))
    else
      match Immediate(NumberText(ReturnAddress(s, p, exchange)), s.symbols)
      case Err(k) => Err(AsmError(n, k))
      case Ok(ret) =>
        match Immediate(p.args[0], s.symbols)
        case Err(k) => Err(AsmError(n, k))
        case Ok(target) => Ok(CallSequence(s, Lead(exchange), ret, target, p.comment, PadCount(PaddingOf(p))))
  }

  /** What a calling sequence pushes before the return address: `'x'` for `CALLX`. */
  function Lead(exchange: bool): seq<Entry> {
    if exchange then [Byte(OpChar('x'), "")] else []
  }

  /** `offset + 3 + origin + padding`, with `offset` taken after the lead. */
  function ReturnAddress(s: AsmState, p: Parts, exchange: bool): Number {
    Add(Add(Int(s.offset + |Lead(exchange)| + 3), s.origin), PaddingOf(p))
  }

  /**
    The state after a calling sequence whose immediates have been resolved: `lead` (the
    exchange opcode of `CALLX`, or nothing) is pushed, then the return address, which is
    exchanged with the entry before it, then the target, the jump opcode and `count` pads.
   */
  function CallSequence(s: AsmState, lead: seq<Entry>, ret: Value, target: Value, comment: string, count: nat): AsmState
    requires |s.code + lead| > 0
  {
    var before := s.code + lead;
    AsmState(s.lineNumber, s.offset + |lead| + 3 + count, s.origin, s.symbols,
             before[..|before| - 1]
             + [Byte(ret, comment), before[|before| - 1], Byte(target, ""), Byte(OpChar('='), comment)]
             + Pads(count))
  }

  /** The fold over source lines; the first error ends it. */
  function Run(s: AsmState, ls: seq<SourceLine>): Result<AsmState, AsmError>
    requires |s.code| > 0 || NoLeadingCall1(ls)
    decreases |ls|
  {
    if ls == [] then Ok(s)
    else
      match Step(s, ls[0])
      case Err(e) => Err(e)
      case Ok(t) => Run(t, ls[1..])
  }

  /** `source.split('\n')`, each line tokenized. */
  function SourceLines(source: string): seq<SourceLine> {
    ParseAll(Split(source, '\n'))
  }

  /** `HLSPL(source)`: assemble every line from the initial state, then list the defines. */
  function Assemble(source: string): Result<Program, AsmError>
    requires NoLeadingCall1(SourceLines(source))
  {
    match Run(Initial, SourceLines(source))
    case Err(e) => Err(e)
    case Ok(s) => Ok(Program(s.origin, s.code, Defines(s.symbols)))
  }
}
