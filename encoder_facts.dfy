/**
  What the assembler promises, proved about the specification in module Encoder: the offset
  counts byte slots, each instruction class has a fixed width, the calling sequence is laid out
  with its return address pointing past the padding, directives and labels bind what they name,
  and an error names the line that caused it.
 */
module EncoderFacts {
  import opened Results
  import opened Strings
  import opened Numerals
  import opened Opcodes
  import opened Symbols
  import opened CodeLines
  import opened Errors
  import opened Immediates
  import opened LineSyntax
  import opened Encoder

  /** The mnemonics that select each branch. */
  lemma ClassifyNames(cmd: string)
    ensures Classify(cmd) == OriginDirective <==> cmd == ".ORIGIN"
    ensures Classify(cmd) == ConstDirective <==> cmd == "CONST"
    ensures Classify(cmd) == PushOp <==> cmd == "PUSH"
    ensures Classify(cmd) == CallOp(false) <==> cmd == "CALL1"
    ensures Classify(cmd) == CallOp(true) <==> cmd == "CALLX"
    ensures Classify(cmd) == StopOp <==> cmd == "STOP"
    ensures Classify(cmd).OneOperandOp? <==> cmd in OneOperandMnemonics
    ensures Classify(cmd).OneOperandOp? ==> Some(Classify(cmd).op) == OneOperandCode(cmd)
    ensures Classify(cmd).SimpleOp? <==> cmd in SimpleMnemonics
    ensures Classify(cmd).SimpleOp? ==> Some(Classify(cmd).op) == SimpleCode(cmd)
    ensures Classify(cmd) == LabelDef <==> cmd != [] && cmd[0] == ':'
  {
    TablesListMnemonics(cmd);
    assert forall m | m in OneOperandMnemonics + SimpleMnemonics :: m[0] != ':';
  }

  /** The number of byte slots each branch occupies; directives, labels and blank lines none. */
  function Width(l: SourceLine): nat {
    match l.kind
    case PushOp | StopOp | SimpleOp(_) => 1
    case CallOp(exchange) => (if exchange then 4 else 3) + PadCount(PaddingOf(l.parts))
    case OneOperandOp(_) => 1 + |l.parts.args|
    case _ => 0
  }

  lemma ByteCountPush(code: seq<Entry>, e: Entry)
    ensures ByteCount(code + [e]) == ByteCount(code) + (if e.Byte? then 1 else 0)
  {
    ByteCountAppend(code, [e]);
    ByteCountOne(e);
  }

  lemma AppendKeepsGood(s: AsmState, t: AsmState, e: Entry)
    requires Good(s)
    requires UniqueKeys(t.symbols) && t.code == s.code + [e]
    requires t.offset == s.offset + (if e.Byte? then 1 else 0)
    ensures Good(t)
  {
    ByteCountPush(s.code, e);
  }

  lemma ByteCountCallBlock(x: seq<Entry>, y: Entry, ret: Entry, target: Entry, jump: Entry, pads: seq<Entry>)
    requires ret.Byte? && target.Byte? && jump.Byte?
    ensures ByteCount(x + [ret, y, target, jump] + pads) == ByteCount(x + [y]) + 3 + ByteCount(pads)
  {
    var block := [ret, y, target, jump];
    ByteCountAppend(x + block, pads);
    ByteCountAppend(x, block);
    ByteCountAppend(x, [y]);
    assert block[..3][..2][..1] == [ret];
    assert block[..3][..2] == [ret, y];
    ByteCountOne(ret);
    ByteCountOne(y);
    assert ByteCount([ret, y]) == 1 + ByteCount([y]);
  }

  lemma CallSequenceKeepsGood(s: AsmState, lead: seq<Entry>, ret: Value, target: Value, comment: string, count: nat)
    requires Good(s) && |s.code + lead| > 0 && ByteCount(lead) == |lead|
    ensures Good(CallSequence(s, lead, ret, target, comment, count))
  {
    var before := s.code + lead;
    var m := |before|;
    ByteCountAppend(s.code, lead);
    assert before == before[..m - 1] + [before[m - 1]];
    ByteCountCallBlock(before[..m - 1], before[m - 1], Byte(ret, comment), Byte(target, ""),
                       Byte(OpChar('='), comment), Pads(count));
    ByteCountPads(count);
  }

  /** A calling sequence that assembles resolved both of its immediates. */
  lemma CallStepIsSequence(s: AsmState, p: Parts, cmd: string, exchange: bool)
    requires exchange || |s.code| > 0 || !(1 <= |p.args| <= 2)
    requires CallStep(s, p, cmd, exchange).Ok?
    ensures 1 <= |p.args| <= 2
    ensures Immediate(NumberText(ReturnAddress(s, p, exchange)), s.symbols).Ok?
    ensures Immediate(p.args[0], s.symbols).Ok?
    ensures CallStep(s, p, cmd, exchange).value ==
      CallSequence(s, Lead(exchange), Immediate(NumberText(ReturnAddress(s, p, exchange)), s.symbols).value,
                   Immediate(p.args[0], s.symbols).value, p.comment, PadCount(PaddingOf(p)))
  {
  }

  lemma CallKeepsGood(s: AsmState, p: Parts, cmd: string, exchange: bool)
    requires Good(s)
    requires exchange || |s.code| > 0 || !(1 <= |p.args| <= 2)
    requires CallStep(s, p, cmd, exchange).Ok?
    ensures Good(CallStep(s, p, cmd, exchange).value)
    ensures CallStep(s, p, cmd, exchange).value.offset == s.offset + (if exchange then 4 else 3) + PadCount(PaddingOf(p))
  {
    CallStepIsSequence(s, p, cmd, exchange);
    if exchange {
      ByteCountOne(Byte(OpChar('x'), ""));
    }
    CallSequenceKeepsGood(s, Lead(exchange), Immediate(NumberText(ReturnAddress(s, p, exchange)), s.symbols).value,
                          Immediate(p.args[0], s.symbols).value, p.comment, PadCount(PaddingOf(p)));
  }

  lemma OneOperandKeepsGood(s: AsmState, p: Parts, cmd: string, op: char)
    requires Good(s)
    requires OneOperandStep(s, p, cmd, op).Ok?
    ensures Good(OneOperandStep(s, p, cmd, op).value)
    ensures OneOperandStep(s, p, cmd, op).value.offset == s.offset + 1 + |p.args|
  {
    var opcode := Byte(OpChar(op), p.comment);
    if |p.args| == 1 {
      var v := Immediate(p.args[0], s.symbols).value;
      ByteCountPush(s.code, Byte(v, ""));
      ByteCountPush(s.code + [Byte(v, "")], opcode);
      assert s.code + [Byte(v, ""), opcode] == s.code + [Byte(v, "")] + [opcode];
    } else {
      ByteCountPush(s.code, opcode);
    }
  }

  /** Every line that assembles keeps `Good` and advances the offset by exactly its `Width`. */
  lemma StepWidth(s: AsmState, l: SourceLine, t: AsmState)
    requires Good(s)
    requires |s.code| > 0 || !IsCall1(l)
    requires Step(s, l) == Ok(t)
    ensures Good(t)
    ensures t.offset == s.offset + Width(l)
  {
    var p := l.parts;
    var n := Next(s);
    match l.kind
    case NoCommand =>
      assert Ok(t) == MarkerStep(n, p);
      AppendKeepsGood(s, t, MarkerFor(p.comment));
    case OriginDirective =>
      assert Ok(t) == OriginStep(n, p);
      BindKeepsUnique(s.symbols, OriginSymbol, NumberText(t.origin));
    case ConstDirective =>
      assert Ok(t) == ConstStep(n, p, l.cmd);
      BindKeepsUnique(s.symbols, p.args[0], p.args[1]);
    case PushOp =>
      assert Ok(t) == PushStep(n, p, l.cmd);
      AppendKeepsGood(s, t, t.code[|s.code|]);
    case CallOp(exchange) =>
      assert Ok(t) == CallStep(n, p, l.cmd, exchange);
      CallKeepsGood(n, p, l.cmd, exchange);
    case StopOp =>
      assert Ok(t) == StopStep(n, p);
      AppendKeepsGood(s, t, t.code[|s.code|]);
    case OneOperandOp(op) =>
      assert Ok(t) == OneOperandStep(n, p, l.cmd, op);
      OneOperandKeepsGood(n, p, l.cmd, op);
    case SimpleOp(op) =>
      assert Ok(t) == SimpleStep(n, p, l.cmd, op);
      AppendKeepsGood(s, t, t.code[|s.code|]);
    case LabelDef =>
      assert Ok(t) == LabelStep(n, p);
      BindKeepsUnique(s.symbols, "LABEL_" + SubstringFrom1(p.cmdOrig), NumberText(Add(Int(s.offset), s.origin)));
      AppendKeepsGood(s, t, Comment(p.trimmed));
  }

  /**
    A label line binds `LABEL_<name>` to `offset + origin` and pushes the trimmed line as a
    comment marker; it fails exactly when that value is the character code of an opcode.
   */
  lemma LabelDefinition(s: AsmState, l: SourceLine)
    requires l.kind == LabelDef
    ensures Step(s, l).Err? <==> IsReservedCode(CharCode(Add(Int(s.offset), s.origin)))
    ensures Step(s, l).Err? ==>
      Step(s, l).error == AsmError(s.lineNumber + 1, LabelIsOpcode(Add(Int(s.offset), s.origin), SubstringFrom1(l.parts.cmdOrig)))
    ensures Step(s, l).Ok? ==>
      Lookup(Step(s, l).value.symbols, "LABEL_" + SubstringFrom1(l.parts.cmdOrig)) == Some(NumberText(Add(Int(s.offset), s.origin)))
    ensures Step(s, l).Ok? ==>
      forall k | k != "LABEL_" + SubstringFrom1(l.parts.cmdOrig) :: Lookup(Step(s, l).value.symbols, k) == Lookup(s.symbols, k)
    ensures Step(s, l).Ok? ==>
      Step(s, l).value.code == s.code + [Comment(l.parts.trimmed)] &&
      Step(s, l).value.offset == s.offset && Step(s, l).value.origin == s.origin
  {
  }

  /** `CONST name value` binds a new name at the end of the table, and fails on a known name or a wrong count. */
  lemma ConstDefinition(s: AsmState, l: SourceLine)
    requires l.kind == ConstDirective
    ensures Step(s, l).Ok? <==> |l.parts.args| == 2 && Lookup(s.symbols, l.parts.args[0]).None?
    ensures |l.parts.args| != 2 ==> Step(s, l) == Err(AsmError(s.lineNumber + 1, ArgCount(l.cmd)))
    ensures |l.parts.args| == 2 && Lookup(s.symbols, l.parts.args[0]).Some? ==>
      Step(s, l) == Err(AsmError(s.lineNumber + 1, AlreadyDefined(l.parts.args[0])))
    ensures Step(s, l).Ok? ==> Step(s, l).value.symbols == s.symbols + [(l.parts.args[0], l.parts.args[1])]
    ensures Step(s, l).Ok? ==>
      Step(s, l).value.code == s.code && Step(s, l).value.offset == s.offset && Step(s, l).value.origin == s.origin
  {
    if |l.parts.args| == 2 && Lookup(s.symbols, l.parts.args[0]).None? {
      BindAppends(s.symbols, l.parts.args[0], l.parts.args[1]);
    }
  }

  /**
    `.ORIGIN` never fails: it sets the origin to its numeral argument (NaN when there is none or
    it is not a numeral) and binds `SPELL_ORIGIN` to the origin's text.
   */
  lemma OriginDefinition(s: AsmState, l: SourceLine)
    requires l.kind == OriginDirective
    ensures Step(s, l).Ok?
    ensures Step(s, l).value.origin == if l.parts.args != [] then ParseNumeral(l.parts.args[0]) else NaN
    ensures Lookup(Step(s, l).value.symbols, OriginSymbol) == Some(NumberText(Step(s, l).value.origin))
    ensures forall k | k != OriginSymbol :: Lookup(Step(s, l).value.symbols, k) == Lookup(s.symbols, k)
    ensures Step(s, l).value.code == s.code && Step(s, l).value.offset == s.offset
  {
  }

  /**
    The argument checks: `PUSH` takes exactly one argument, `CONST` two, `CALL1`/`CALLX` one or
    two; a one-operand instruction at most one and an instruction without operands none. `STOP`
    and `.ORIGIN` accept anything, and a mnemonic of no branch is an unknown command.
   */
  lemma ArgumentChecks(s: AsmState, l: SourceLine)
    requires |s.code| > 0 || !IsCall1(l)
    ensures l.kind == PushOp && |l.parts.args| != 1 ==> Step(s, l) == Err(AsmError(s.lineNumber + 1, ArgCount(l.cmd)))
    ensures l.kind == ConstDirective && |l.parts.args| != 2 ==> Step(s, l) == Err(AsmError(s.lineNumber + 1, ArgCount(l.cmd)))
    ensures l.kind.CallOp? && !(1 <= |l.parts.args| <= 2) ==> Step(s, l) == Err(AsmError(s.lineNumber + 1, ArgCount(l.cmd)))
    ensures l.kind.OneOperandOp? && |l.parts.args| > 1 ==> Step(s, l) == Err(AsmError(s.lineNumber + 1, TooManyArgs(l.cmd)))
    ensures l.kind.SimpleOp? && |l.parts.args| > 0 ==> Step(s, l) == Err(AsmError(s.lineNumber + 1, TooManyArgs(l.cmd)))
    ensures l.kind in {NoCommand, OriginDirective, StopOp} ==> Step(s, l).Ok?
    ensures l.kind == Unknown ==> Step(s, l) == Err(AsmError(s.lineNumber + 1, UnknownCommand(l.cmd)))
  {
  }

  /**
    The single-slot instructions and the one-operand instructions: the operand slot carries no
    comment, the opcode or value slot carries the line's comment, and an operand the immediate
    rules reject is reported with its own error.
   */
  lemma InstructionLayout(s: AsmState, l: SourceLine)
    requires !l.kind.CallOp?
    ensures l.kind == PushOp && |l.parts.args| == 1 ==>
      match Immediate(l.parts.args[0], s.symbols)
      case Err(k) => Step(s, l) == Err(AsmError(s.lineNumber + 1, k))
      case Ok(v) => Step(s, l).Ok? && Step(s, l).value.code == s.code + [Byte(v, l.parts.comment)]
    ensures l.kind == StopOp ==>
      Step(s, l).Ok? && Step(s, l).value.code == s.code + [Byte(Literal("0xff"), l.parts.comment)]
    ensures (l.kind.SimpleOp? || l.kind.OneOperandOp?) && l.parts.args == [] ==>
      Step(s, l).Ok? && Step(s, l).value.code == s.code + [Byte(OpChar(l.kind.op), l.parts.comment)]
    ensures l.kind.OneOperandOp? && |l.parts.args| == 1 ==>
      match Immediate(l.parts.args[0], s.symbols)
      case Err(k) => Step(s, l) == Err(AsmError(s.lineNumber + 1, k))
      case Ok(v) => Step(s, l).Ok? && Step(s, l).value.code == s.code + [Byte(v, ""), Byte(OpChar(l.kind.op), l.parts.comment)]
  {
  }

  /** The calling sequence of `CALL1`: the return address takes the place of the last entry, which moves after it. */
  lemma Call1SequenceLayout(s: AsmState, ret: Value, target: Value, comment: string, count: nat)
    requires |s.code| > 0
    ensures |CallSequence(s, [], ret, target, comment, count).code| == |s.code| + 3 + count
    ensures CallSequence(s, [], ret, target, comment, count).code[..|s.code| - 1] == s.code[..|s.code| - 1]
    ensures CallSequence(s, [], ret, target, comment, count).code[|s.code| - 1] == Byte(ret, comment)
    ensures CallSequence(s, [], ret, target, comment, count).code[|s.code|] == s.code[|s.code| - 1]
    ensures CallSequence(s, [], ret, target, comment, count).code[|s.code| + 1..] ==
      [Byte(target, ""), Byte(OpChar('='), comment)] + Pads(count)
  {
    var t := CallSequence(s, [], ret, target, comment, count);
    var k := |s.code| - 1;
    assert s.code + [] == s.code;
    var block := [Byte(ret, comment), s.code[k], Byte(target, ""), Byte(OpChar('='), comment)];
    assert t.code == s.code[..k] + block + Pads(count);
    assert t.code[k + 2..] == block[2..] + Pads(count);
  }

  /** The calling sequence of `CALLX`: the return address goes before the exchange opcode. */
  lemma CallXSequenceLayout(s: AsmState, ret: Value, target: Value, comment: string, count: nat)
    ensures |CallSequence(s, [Byte(OpChar('x'), "")], ret, target, comment, count).code| == |s.code| + 4 + count
    ensures CallSequence(s, [Byte(OpChar('x'), "")], ret, target, comment, count).code[..|s.code|] == s.code
    ensures CallSequence(s, [Byte(OpChar('x'), "")], ret, target, comment, count).code[|s.code|] == Byte(ret, comment)
    ensures CallSequence(s, [Byte(OpChar('x'), "")], ret, target, comment, count).code[|s.code| + 1] == Byte(OpChar('x'), "")
    ensures CallSequence(s, [Byte(OpChar('x'), "")], ret, target, comment, count).code[|s.code| + 2..] ==
      [Byte(target, ""), Byte(OpChar('='), comment)] + Pads(count)
  {
    var t := CallSequence(s, [Byte(OpChar('x'), "")], ret, target, comment, count);
    var before := s.code + [Byte(OpChar('x'), "")];
    var k := |s.code|;
    assert before[..k] == s.code;
    var block := [Byte(ret, comment), Byte(OpChar('x'), ""), Byte(target, ""), Byte(OpChar('='), comment)];
    assert t.code == s.code + block + Pads(count);
    assert t.code[k + 2..] == block[2..] + Pads(count);
  }

  /** Where a calling sequence puts its return address: just before the entry that precedes it. */
  function ReturnSlot(code: seq<Entry>, exchange: bool): int {
    if exchange then |code| else |code| - 1
  }

  lemma CallStepLayout(s: AsmState, p: Parts, cmd: string, exchange: bool, t: AsmState)
    requires exchange || |s.code| > 0 || !(1 <= |p.args| <= 2)
    requires CallStep(s, p, cmd, exchange) == Ok(t)
    ensures 1 <= |p.args| <= 2 && Immediate(p.args[0], s.symbols).Ok? && 0 <= ReturnSlot(s.code, exchange)
    ensures |t.code| == ReturnSlot(s.code, exchange) + 4 + PadCount(PaddingOf(p))
    ensures t.offset == s.offset + (if exchange then 4 else 3) + PadCount(PaddingOf(p))
    ensures t.code[..ReturnSlot(s.code, exchange)] == s.code[..ReturnSlot(s.code, exchange)]
    ensures t.code[ReturnSlot(s.code, exchange)].Byte? && t.code[ReturnSlot(s.code, exchange)].comment == p.comment
    ensures t.code[ReturnSlot(s.code, exchange) + 1] ==
      if exchange then Byte(OpChar('x'), "") else s.code[ReturnSlot(s.code, exchange)]
    ensures t.code[ReturnSlot(s.code, exchange) + 2..] ==
      [Byte(Immediate(p.args[0], s.symbols).value, ""), Byte(OpChar('='), p.comment)] + Pads(PadCount(PaddingOf(p)))
    ensures PaddingOf(p).Int? ==>
      Immediate(NumberText(Add(Int(t.offset), s.origin)), s.symbols) == Ok(t.code[ReturnSlot(s.code, exchange)].value)
  {
    CallStepIsSequence(s, p, cmd, exchange);
    var ret := Immediate(NumberText(ReturnAddress(s, p, exchange)), s.symbols).value;
    var target := Immediate(p.args[0], s.symbols).value;
    var count := PadCount(PaddingOf(p));
    if exchange {
      CallXSequenceLayout(s, ret, target, p.comment, count);
    } else {
      Call1SequenceLayout(s, ret, target, p.comment, count);
    }
  }

  /**
    The calling sequence. With `k` the position the return address lands on: the code before `k`
    is kept; `k` holds the return address with the line's comment; `k + 1` the entry that preceded
    it (for `CALLX` the exchange opcode); then the target without comment, the jump opcode with
    the comment, and the padding. The return address is the origin plus the offset after the
    padding, so it points at the first byte after the whole sequence.
   */
  lemma CallLayout(s: AsmState, l: SourceLine, t: AsmState)
    requires l.kind.CallOp?
    requires |s.code| > 0 || !IsCall1(l)
    requires Step(s, l) == Ok(t)
    ensures 1 <= |l.parts.args| <= 2 && Immediate(l.parts.args[0], s.symbols).Ok?
    ensures 0 <= ReturnSlot(s.code, l.kind.exchange)
    ensures |t.code| == ReturnSlot(s.code, l.kind.exchange) + 4 + PadCount(PaddingOf(l.parts))
    ensures t.offset == s.offset + (if l.kind.exchange then 4 else 3) + PadCount(PaddingOf(l.parts))
    ensures t.code[..ReturnSlot(s.code, l.kind.exchange)] == s.code[..ReturnSlot(s.code, l.kind.exchange)]
    ensures t.code[ReturnSlot(s.code, l.kind.exchange)].Byte?
    ensures t.code[ReturnSlot(s.code, l.kind.exchange)].comment == l.parts.comment
    ensures t.code[ReturnSlot(s.code, l.kind.exchange) + 1] ==
      if l.kind.exchange then Byte(OpChar('x'), "") else s.code[ReturnSlot(s.code, l.kind.exchange)]
    ensures t.code[ReturnSlot(s.code, l.kind.exchange) + 2..] ==
      [Byte(Immediate(l.parts.args[0], s.symbols).value, ""), Byte(OpChar('='), l.parts.comment)]
      + Pads(PadCount(PaddingOf(l.parts)))
    ensures PaddingOf(l.parts).Int? ==>
      Immediate(NumberText(Add(Int(t.offset), s.origin)), s.symbols) == Ok(t.code[ReturnSlot(s.code, l.kind.exchange)].value)
  {
    CallStepLayout(Next(s), l.parts, l.cmd, l.kind.exchange, t);
  }


  /** The byte slots a sequence of lines occupies: the sum of their widths. */
  function TotalWidth(ls: seq<SourceLine>): nat {
    if ls == [] then 0 else Width(ls[0]) + TotalWidth(ls[1..])
  }

  /** A run that succeeds keeps `Good`, counts every line, and advances the offset by the total width. */
  lemma {:induction false} RunWidth(s: AsmState, ls: seq<SourceLine>)
    requires Good(s)
    requires |s.code| > 0 || NoLeadingCall1(ls)
    requires Run(s, ls).Ok?
    ensures Good(Run(s, ls).value)
    ensures Run(s, ls).value.offset == s.offset + TotalWidth(ls)
    ensures Run(s, ls).value.lineNumber == s.lineNumber + |ls|
    decreases |ls|
  {
    if ls != [] {
      StepWidth(s, ls[0], Step(s, ls[0]).value);
      RunWidth(Step(s, ls[0]).value, ls[1..]);
    }
  }

  lemma {:induction false} NoLeadingCall1Prefix(ls: seq<SourceLine>, i: nat)
    requires NoLeadingCall1(ls) && i <= |ls|
    ensures NoLeadingCall1(ls[..i])
    decreases i
  {
    if i > 0 {
      assert ls[..i][0] == ls[0];
      assert ls[..i][1..] == ls[1..][..i - 1];
      if PushesNothing(ls[0]) {
        NoLeadingCall1Prefix(ls[1..], i - 1);
      }
    }
  }

  /**
    An error carries the 1-based number of the line that raised it: the lines before it assemble,
    and assembling that line from the state they leave raises exactly this error.
   */
  lemma {:induction false} RunFailsAtLine(s: AsmState, ls: seq<SourceLine>, e: AsmError)
    requires |s.code| > 0 || NoLeadingCall1(ls)
    requires Run(s, ls) == Err(e)
    ensures 0 <= e.line - s.lineNumber - 1 < |ls|
    ensures |s.code| > 0 || NoLeadingCall1(ls[..e.line - s.lineNumber - 1])
    ensures Run(s, ls[..e.line - s.lineNumber - 1]).Ok?
    ensures |Run(s, ls[..e.line - s.lineNumber - 1]).value.code| > 0 || !IsCall1(ls[e.line - s.lineNumber - 1])
    ensures Step(Run(s, ls[..e.line - s.lineNumber - 1]).value, ls[e.line - s.lineNumber - 1]) == Err(e)
    decreases |ls|, 1
  {
    if Step(s, ls[0]).Err? {
      assert ls[..0] == [];
      assert Run(s, ls[..0]) == Ok(s);
    } else {
      RunFailsLater(s, ls, e);
    }
  }

  lemma {:induction false} RunFailsLater(s: AsmState, ls: seq<SourceLine>, e: AsmError)
    requires |s.code| > 0 || NoLeadingCall1(ls)
    requires Run(s, ls) == Err(e)
    requires ls != [] && Step(s, ls[0]).Ok?
    ensures 0 <= e.line - s.lineNumber - 1 < |ls|
    ensures |s.code| > 0 || NoLeadingCall1(ls[..e.line - s.lineNumber - 1])
    ensures Run(s, ls[..e.line - s.lineNumber - 1]).Ok?
    ensures |Run(s, ls[..e.line - s.lineNumber - 1]).value.code| > 0 || !IsCall1(ls[e.line - s.lineNumber - 1])
    ensures Step(Run(s, ls[..e.line - s.lineNumber - 1]).value, ls[e.line - s.lineNumber - 1]) == Err(e)
    decreases |ls|, 0
  {
      var t := Step(s, ls[0]).value;
      assert t.lineNumber == s.lineNumber + 1;
      assert Run(s, ls) == Run(t, ls[1..]);
      RunFailsAtLine(t, ls[1..], e);
      var i := e.line - s.lineNumber - 1;
      assert e.line - t.lineNumber - 1 == i - 1;
      if |s.code| == 0 {
        NoLeadingCall1Prefix(ls, i);
      }
      RunPrefix(s, ls, i);
      var u := Run(t, ls[1..][..i - 1]).value;
      assert Run(s, ls[..i]) == Ok(u);
      assert ls[1..][i - 1] == ls[i];
      assert Step(u, ls[i]) == Err(e);
  }

  lemma RunPrefix(s: AsmState, ls: seq<SourceLine>, i: nat)
    requires 0 < i <= |ls|
    requires |s.code| > 0 || NoLeadingCall1(ls[..i])
    requires |s.code| > 0 || NoLeadingCall1(ls)
    requires Step(s, ls[0]).Ok?
    ensures var t := Step(s, ls[0]).value;
      (|t.code| > 0 || NoLeadingCall1(ls[1..][..i - 1])) &&
      Run(s, ls[..i]) == Run(t, ls[1..][..i - 1])
  {
    assert ls[..i][0] == ls[0];
    assert ls[..i][1..] == ls[1..][..i - 1];
  }

  /** The errors of `HLSPL` name a line of the source, counting from 1. */
  lemma AssembleErrorLine(source: string)
    requires NoLeadingCall1(SourceLines(source))
    requires Assemble(source).Err?
    ensures 1 <= Assemble(source).error.line <= |Split(source, '\n')|
  {
    RunFailsAtLine(Initial, SourceLines(source), Assemble(source).error);
  }

  /** Whether a line writes the symbol `k`. */
  predicate Binds(l: SourceLine, k: string) {
    match l.kind
    case OriginDirective => k == OriginSymbol
    case ConstDirective => |l.parts.args| == 2 && l.parts.args[0] == k
    case LabelDef => k == "LABEL_" + SubstringFrom1(l.parts.cmdOrig)
    case _ => false
  }

  /** A line that does not write `k` leaves its binding as it was. */
  lemma StepKeepsSymbol(s: AsmState, l: SourceLine, k: string)
    requires |s.code| > 0 || !IsCall1(l)
    requires Step(s, l).Ok?
    requires !Binds(l, k)
    ensures Lookup(Step(s, l).value.symbols, k) == Lookup(s.symbols, k)
  {
  }

  /**
    A binding survives every later line that does not write the same symbol; in particular a
    label keeps the value of its definition unless the same label is defined again.
   */
  lemma {:induction false} RunKeepsSymbol(s: AsmState, ls: seq<SourceLine>, k: string)
    requires |s.code| > 0 || NoLeadingCall1(ls)
    requires Run(s, ls).Ok?
    requires forall i | 0 <= i < |ls| :: !Binds(ls[i], k)
    ensures Lookup(Run(s, ls).value.symbols, k) == Lookup(s.symbols, k)
    decreases |ls|
  {
    if ls != [] {
      StepKeepsSymbol(s, ls[0], k);
      assert forall i | 0 <= i < |ls[1..]| :: !Binds(ls[1..][i], k) by {
        forall i | 0 <= i < |ls[1..]| ensures !Binds(ls[1..][i], k) {
          assert ls[1..][i] == ls[i + 1];
        }
      }
      RunKeepsSymbol(Step(s, ls[0]).value, ls[1..], k);
    }
  }
}
