/**
  The assembler as the source writes it: one object whose fields are the loop variables of
  `HLSPL`, updated in place line by line. Each method is proved to agree with the specification
  in module Encoder.
 */
module Assembler {
  import opened Results
  import opened Numerals
  import opened Symbols
  import opened CodeLines
  import opened Errors
  import opened Immediates
  import opened LineSyntax
  import opened Encoder
  import Strings

  class Assembler {
    var lineNumber: nat
    var offset: nat
    var origin: Number
    var symbols: Table
    var code: seq<Entry>

    /** The fields as a specification state. */
    function State(): AsmState
      reads this
    {
      AsmState(lineNumber, offset, origin, symbols, code)
    }

    constructor ()
      ensures State() == Initial
    {
      lineNumber := 0;
      offset := 0;
      origin := Int(DefaultOrigin);
      symbols := [];
      code := [];
    }

    /** `emitCommand(value, main)`: one byte slot; the line's comment goes only on a main slot. */
    method Emit(value: Value, main: bool, comment: string)
      modifies this
      ensures code == old(code) + [Byte(value, if main then comment else "")]
      ensures offset == old(offset) + 1
      ensures lineNumber == old(lineNumber) && origin == old(origin) && symbols == old(symbols)
    {
      offset := offset + 1;
      code := code + [Byte(value, if main then comment else "")];
    }

    /** The exchange through `temp` of the last two code entries. */
    method SwapLastTwo()
      requires |code| >= 2
      modifies this
      ensures code == old(code)[..|old(code)| - 2] + [old(code)[|old(code)| - 1], old(code)[|old(code)| - 2]]
      ensures offset == old(offset) && lineNumber == old(lineNumber)
      ensures origin == old(origin) && symbols == old(symbols)
    {
      var last := |code| - 1;
      var temp := code[last];
      code := code[last := code[last - 1]];
      code := code[last - 1 := temp];
    }

    /** The padding loop: `count` slots `0 /* pad */`. */
    method EmitPadding(count: nat, comment: string)
      modifies this
      ensures code == old(code) + Pads(count)
      ensures offset == old(offset) + count
      ensures lineNumber == old(lineNumber) && origin == old(origin) && symbols == old(symbols)
    {
      for i := 0 to count
        invariant code == old(code) + Pads(i)
        invariant offset == old(offset) + i
        invariant lineNumber == old(lineNumber) && origin == old(origin) && symbols == old(symbols)
      {
        Emit(Pad, false, comment);
        assert Pads(i + 1) == Pads(i) + [Byte(Pad, "")];
      }
    }

    /** A line without a mnemonic: its blank or comment marker. */
    method Marker(p: Parts) returns (error: Option<AsmError>)
      modifies this
      ensures MarkerStep(old(State()), p).Ok? ==> error == None && State() == MarkerStep(old(State()), p).value
      ensures MarkerStep(old(State()), p).Err? ==> error == Some(MarkerStep(old(State()), p).error)
    {
      code := code + [if p.comment != "" then Comment(Strings.Trim(p.comment)) else Blank];
      return None;
    }

    /** `.ORIGIN`: the origin, and its record under `SPELL_ORIGIN`. */
    method Origin(p: Parts) returns (error: Option<AsmError>)
      modifies this
      ensures OriginStep(old(State()), p).Ok? ==> error == None && State() == OriginStep(old(State()), p).value
      ensures OriginStep(old(State()), p).Err? ==> error == Some(OriginStep(old(State()), p).error)
    {
      origin := if |p.args| > 0 then ParseNumeral(p.args[0]) else NaN;
      symbols := Bind(symbols, OriginSymbol, NumberText(origin));
      return None;
    }

    /** `CONST name value`. */
    method Const(p: Parts, cmd: string) returns (error: Option<AsmError>)
      modifies this
      ensures ConstStep(old(State()), p, cmd).Ok? ==> error == None && State() == ConstStep(old(State()), p, cmd).value
      ensures ConstStep(old(State()), p, cmd).Err? ==> error == Some(ConstStep(old(State()), p, cmd).error)
    {
      if |p.args| != 2 {
        return Some(AsmError(lineNumber, ArgCount(cmd)));
      }
      var name, value := p.args[0], p.args[1];
      if Lookup(symbols, name).Some? {
        return Some(AsmError(lineNumber, AlreadyDefined(name)));
      }
      symbols := Bind(symbols, name, value);
      return None;
    }

    /** `PUSH v`. */
    method Push(p: Parts, cmd: string) returns (error: Option<AsmError>)
      modifies this
      ensures PushStep(old(State()), p, cmd).Ok? ==> error == None && State() == PushStep(old(State()), p, cmd).value
      ensures PushStep(old(State()), p, cmd).Err? ==> error == Some(PushStep(old(State()), p, cmd).error)
    {
      if |p.args| != 1 {
        return Some(AsmError(lineNumber, ArgCount(cmd)));
      }
      var v := Immediate(p.args[0], symbols);
      if v.Err? {
        return Some(AsmError(lineNumber, v.error));
      }
      Emit(v.value, true, p.comment);
      return None;
    }

    /** `STOP`. */
    method Stop(p: Parts) returns (error: Option<AsmError>)
      modifies this
      ensures StopStep(old(State()), p).Ok? ==> error == None && State() == StopStep(old(State()), p).value
      ensures StopStep(old(State()), p).Err? ==> error == Some(StopStep(old(State()), p).error)
    {
      Emit(Literal("0xff"), true, p.comment);
      return None;
    }

    /** An instruction of the one-operand class. */
    method OneOperand(p: Parts, cmd: string, op: char) returns (error: Option<AsmError>)
      modifies this
      ensures OneOperandStep(old(State()), p, cmd, op).Ok? ==> error == None && State() == OneOperandStep(old(State()), p, cmd, op).value
      ensures OneOperandStep(old(State()), p, cmd, op).Err? ==> error == Some(OneOperandStep(old(State()), p, cmd, op).error)
    {
      if |p.args| > 1 {
        return Some(AsmError(lineNumber, TooManyArgs(cmd)));
      }
      if |p.args| == 1 {
        var v := Immediate(p.args[0], symbols);
        if v.Err? {
          return Some(AsmError(lineNumber, v.error));
        }
        Emit(v.value, false, p.comment);
      }
      Emit(OpChar(op), true, p.comment);
      return None;
    }

    /** An instruction of the simple class: the opcode is emitted before the arguments are checked. */
    method Simple(p: Parts, cmd: string, op: char) returns (error: Option<AsmError>)
      modifies this
      ensures SimpleStep(old(State()), p, cmd, op).Ok? ==> error == None && State() == SimpleStep(old(State()), p, cmd, op).value
      ensures SimpleStep(old(State()), p, cmd, op).Err? ==> error == Some(SimpleStep(old(State()), p, cmd, op).error)
    {
      Emit(OpChar(op), true, p.comment);
      if |p.args| > 0 {
        return Some(AsmError(lineNumber, TooManyArgs(cmd)));
      }
      return None;
    }

    /** A label definition. */
    method Label(p: Parts) returns (error: Option<AsmError>)
      modifies this
      ensures LabelStep(old(State()), p).Ok? ==> error == None && State() == LabelStep(old(State()), p).value
      ensures LabelStep(old(State()), p).Err? ==> error == Some(LabelStep(old(State()), p).error)
    {
      var name := SubstringFrom1(p.cmdOrig);
      var value := Add(Int(offset), origin);
      if Opcodes.IsReservedCode(CharCode(value)) {
        return Some(AsmError(lineNumber, LabelIsOpcode(value, name)));
      }
      symbols := Bind(symbols, "LABEL_" + name, NumberText(value));
      code := code + [Comment(p.trimmed)];
      return None;
    }

    /** The return address, emitted and then exchanged with the entry before it. */
    method EmitReturnAddress(ret: Value, comment: string)
      requires |code| > 0
      modifies this
      ensures code == old(code)[..|old(code)| - 1] + [Byte(ret, comment), old(code)[|old(code)| - 1]]
      ensures offset == old(offset) + 1
      ensures lineNumber == old(lineNumber) && origin == old(origin) && symbols == old(symbols)
    {
      Emit(ret, true, comment);
      SwapLastTwo();
    }

    /** The target, the jump opcode and the padding of a calling sequence. */
    method EmitJump(target: Value, comment: string, count: nat)
      modifies this
      ensures code == old(code) + [Byte(target, ""), Byte(OpChar('='), comment)] + Pads(count)
      ensures offset == old(offset) + 2 + count
      ensures lineNumber == old(lineNumber) && origin == old(origin) && symbols == old(symbols)
    {
      Emit(target, false, comment);
      Emit(OpChar('='), true, comment);
      EmitPadding(count, comment);
    }

    /** `CALL1`/`CALLX`. */
    method Call(p: Parts, cmd: string, exchange: bool) returns (error: Option<AsmError>)
      requires exchange || |code| > 0 || !(1 <= |p.args| <= 2)
      modifies this
      ensures CallStep(old(State()), p, cmd, exchange).Ok? ==> error == None && State() == CallStep(old(State()), p, cmd, exchange).value
      ensures CallStep(old(State()), p, cmd, exchange).Err? ==> error == Some(CallStep(old(State()), p, cmd, exchange).error)
    {
      var start := State();
      if |p.args| < 1 || |p.args| > 2 {
        return Some(AsmError(lineNumber, ArgCount(cmd)));
      }
      if exchange {
        Emit(OpChar('x'), false, p.comment);
      }
      assert State() == AsmState(start.lineNumber, start.offset + |Lead(exchange)|, start.origin, start.symbols, start.code + Lead(exchange));
      error := CallAfterLead(start, p, cmd, exchange);
    }

    /** The part of a calling sequence that follows the lead: the return address, the target, the jump and the padding. */
    method CallAfterLead(ghost start: AsmState, p: Parts, cmd: string, exchange: bool) returns (error: Option<AsmError>)
      requires 1 <= |p.args| <= 2 && (exchange || |start.code| > 0)
      requires State() == AsmState(start.lineNumber, start.offset + |Lead(exchange)|, start.origin, start.symbols, start.code + Lead(exchange))
      modifies this
      ensures CallStep(start, p, cmd, exchange).Ok? ==> error == None && State() == CallStep(start, p, cmd, exchange).value
      ensures CallStep(start, p, cmd, exchange).Err? ==> error == Some(CallStep(start, p, cmd, exchange).error)
    {
      var address := Add(Add(Int(offset + 3), origin), PaddingOf(p));
      assert address == ReturnAddress(start, p, exchange);
      var returnAddr := Immediate(NumberText(address), symbols);
      if returnAddr.Err? {
        CallFails(start, p, cmd, exchange, returnAddr.error);
        return Some(AsmError(lineNumber, returnAddr.error));
      }
      EmitReturnAddress(returnAddr.value, p.comment);
      var target := Immediate(p.args[0], symbols);
      if target.Err? {
        CallTargetFails(start, p, cmd, exchange, returnAddr.value, target.error);
        return Some(AsmError(lineNumber, target.error));
      }
      var count := PadCount(PaddingOf(p));
      EmitJump(target.value, p.comment, count);
      CallSucceeds(start, p, cmd, exchange, returnAddr.value, target.value);
      CallSequenceState(start, Lead(exchange), returnAddr.value, target.value, p.comment, count, State());
      return None;
    }

    /** One iteration of the loop over source lines. */
    method AssembleLine(l: SourceLine) returns (error: Option<AsmError>)
      requires |code| > 0 || !IsCall1(l)
      modifies this
      ensures Step(old(State()), l).Ok? ==> error == None && State() == Step(old(State()), l).value
      ensures Step(old(State()), l).Err? ==> error == Some(Step(old(State()), l).error)
    {
      var p := l.parts;
      lineNumber := lineNumber + 1;
      assert State() == Next(old(State()));
      match l.kind
      case NoCommand => error := Marker(p);
      case OriginDirective => error := Origin(p);
      case ConstDirective => error := Const(p, l.cmd);
      case PushOp => error := Push(p, l.cmd);
      case CallOp(exchange) => error := Call(p, l.cmd, exchange);
      case StopOp => error := Stop(p);
      case OneOperandOp(op) => error := OneOperand(p, l.cmd, op);
      case SimpleOp(op) => error := Simple(p, l.cmd, op);
      case LabelDef => error := Label(p);
      case Unknown => error := Some(AsmError(lineNumber, UnknownCommand(l.cmd)));
    }

    /** The loop over `Object.entries(symbols)` that writes the defines header. */
    method ListDefines() returns (defines: seq<string>)
      ensures defines == Symbols.Defines(symbols)
    {
      defines := [];
      for i := 0 to |symbols|
        invariant defines == Symbols.Defines(symbols[..i])
      {
        defines := defines + [DefineLine(symbols[i].0, symbols[i].1)];
      }
    }
  }

  lemma CallFails(s: AsmState, p: Parts, cmd: string, exchange: bool, k: ErrorKind)
    requires exchange || |s.code| > 0
    requires 1 <= |p.args| <= 2
    requires Immediate(NumberText(ReturnAddress(s, p, exchange)), s.symbols) == Err(k)
    ensures CallStep(s, p, cmd, exchange) == Err(AsmError(s.lineNumber, k))
  {
  }

  lemma CallTargetFails(s: AsmState, p: Parts, cmd: string, exchange: bool, ret: Value, k: ErrorKind)
    requires exchange || |s.code| > 0
    requires 1 <= |p.args| <= 2
    requires Immediate(NumberText(ReturnAddress(s, p, exchange)), s.symbols) == Ok(ret)
    requires Immediate(p.args[0], s.symbols) == Err(k)
    ensures CallStep(s, p, cmd, exchange) == Err(AsmError(s.lineNumber, k))
  {
  }

  lemma CallSucceeds(s: AsmState, p: Parts, cmd: string, exchange: bool, ret: Value, target: Value)
    requires exchange || |s.code| > 0
    requires 1 <= |p.args| <= 2
    requires Immediate(NumberText(ReturnAddress(s, p, exchange)), s.symbols) == Ok(ret)
    requires Immediate(p.args[0], s.symbols) == Ok(target)
    ensures CallStep(s, p, cmd, exchange)
         == Ok(CallSequence(s, Lead(exchange), ret, target, p.comment, PadCount(PaddingOf(p))))
  {
  }

  lemma CallSequenceState(s: AsmState, lead: seq<Entry>, ret: Value, target: Value, comment: string, count: nat, t: AsmState)
    requires |s.code + lead| > 0
    requires var before := s.code + lead;
      t.code == before[..|before| - 1] + [Byte(ret, comment), before[|before| - 1]]
                + [Byte(target, ""), Byte(OpChar('='), comment)] + Pads(count)
    requires t.offset == s.offset + |lead| + 1 + 2 + count
    requires t.lineNumber == s.lineNumber && t.origin == s.origin && t.symbols == s.symbols
    ensures t == CallSequence(s, lead, ret, target, comment, count)
  {
    CallSequenceCode(s.code + lead, ret, target, comment, count);
  }

  /** The code of a calling sequence, regrouped as the methods push it. */
  lemma CallSequenceCode(before: seq<Entry>, ret: Value, target: Value, comment: string, count: nat)
    requires |before| > 0
    ensures before[..|before| - 1] + [Byte(ret, comment), before[|before| - 1]]
              + [Byte(target, ""), Byte(OpChar('='), comment)] + Pads(count)
         == before[..|before| - 1]
              + [Byte(ret, comment), before[|before| - 1], Byte(target, ""), Byte(OpChar('='), comment)]
              + Pads(count)
  {
  }

  /** `HLSPL(source)`: the assembler run over every line of the source, then the defines. */
  method HLSPL(source: string) returns (result: Result<Program, AsmError>)
    requires NoLeadingCall1(SourceLines(source))
    ensures result == Assemble(source)
  {
    var lines := Strings.Split(source, '\n');
    ghost var ls := SourceLines(source);
    var asm := new Assembler();
    for i := 0 to |lines|
      invariant |asm.code| > 0 || NoLeadingCall1(ls[i..])
      invariant Run(Initial, ls) == Run(asm.State(), ls[i..])
    {
      assert ls[i..][0] == Parse(lines[i]);
      assert ls[i..][1..] == ls[i + 1..];
      var error := asm.AssembleLine(Parse(lines[i]));
      if error.Some? {
        return Err(error.value);
      }
    }
    assert ls[|lines|..] == [];
    var defines := asm.ListDefines();
    return Ok(Program(asm.origin, asm.code, defines));
  }
}
