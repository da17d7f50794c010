/**
  What the assembler's output promises the byte reader. Every code line the assembler pushes
  decodes to a byte exactly when it is a byte slot, and the symbol table it leaves binds names
  without spaces to single words, so its `#define` lines read back. Hence the bytes `SPLBytes`
  reads from a program `HLSPL` returns are as many as its byte slots, which is the `offset` the
  assembler counted.
 */
module AssembledBytes {
  import opened Results
  import opened Strings
  import opened Numerals
  import opened Symbols
  import opened CodeLines
  import opened LineSyntax
  import opened Immediates
  import opened Encoder
  import opened EncoderFacts
  import opened ByteExtract

  /** What assembling keeps true of the state: the code meets `FilledSlots` and the table `SpaceFree`. */
  predicate WellFormed(s: AsmState) {
    FilledSlots(s.code) && SpaceFree(s.symbols)
  }

  /** What tokenizing guarantees of the parts of a line. */
  predicate TokenizedParts(p: Parts) {
    && (forall k | 0 <= k < |p.args| :: IsWord(p.args[k]))
    && (p.cmdOrig != "" ==> IsWord(p.cmdOrig) && p.trimmed != "")
    && Trim(p.trimmed) == p.trimmed
    && (p.comment != "" ==> Trim(p.comment) != "")
  }

  /** A line as `Parse` makes it: tokenized, with the branch of its upper-cased mnemonic. */
  predicate Tokenized(l: SourceLine) {
    TokenizedParts(l.parts) && |l.cmd| == |l.parts.cmdOrig| && l.kind == Classify(l.cmd)
  }

  lemma ParseTokenized(line: string)
    ensures Tokenized(Parse(line))
  {
    TokenizeTrimmed(line);
  }

  lemma SourceLinesTokenized(source: string)
    ensures forall i | 0 <= i < |SourceLines(source)| :: Tokenized(SourceLines(source)[i])
  {
    var lines := Split(source, '\n');
    forall i | 0 <= i < |lines| ensures Tokenized(SourceLines(source)[i]) {
      ParseTokenized(lines[i]);
    }
  }

  // ---------------------------------------------------------------------------------------
  // The symbol table

  lemma NoBlank(w: string)
    requires NoSpace(w)
    ensures ' ' !in w
  {
  }

  lemma SpaceFreeTail(t: Table)
    requires t != [] && SpaceFree(t)
    ensures SpaceFree(t[1..])
  {
    assert forall i | 0 <= i < |t[1..]| :: t[1..][i] == t[i + 1];
  }

  /** The texts of a space-free table are single words. */
  lemma {:induction false} LookupWord(t: Table, k: string)
    requires SpaceFree(t) && Lookup(t, k).Some?
    ensures IsWord(Lookup(t, k).value)
    decreases |t|
  {
    if t[0].0 != k {
      SpaceFreeTail(t);
      LookupWord(t[1..], k);
    }
  }

  /** Binding a name without spaces to a word keeps the table space-free. */
  lemma {:induction false} BindSpaceFree(t: Table, k: string, v: string)
    requires SpaceFree(t) && ' ' !in k && IsWord(v)
    ensures SpaceFree(Bind(t, k, v))
    decreases |t|
  {
    var r := Bind(t, k, v);
    if t != [] && t[0].0 != k {
      SpaceFreeTail(t);
      BindSpaceFree(t[1..], k, v);
      var r' := Bind(t[1..], k, v);
      assert r == [t[0]] + r';
      assert forall i | 1 <= i < |r| :: r[i] == r'[i - 1];
    } else if t != [] {
      assert r == [(k, v)] + t[1..];
      assert forall i | 1 <= i < |r| :: r[i] == t[i];
    }
  }

  /** `toString` of a number is a single word: digits, or `NaN`. */
  lemma NumberTextWord(x: Number)
    ensures IsWord(NumberText(x))
  {
    if x.Int? {
      var s := NatToString(x.n);
      assert forall i | 0 <= i < |s| :: IsDigit(s[i]);
    }
  }

  /** The name of the symbol a label defines holds no space. */
  lemma LabelNameFree(cmdOrig: string)
    requires IsWord(cmdOrig)
    ensures ' ' !in "LABEL_" + SubstringFrom1(cmdOrig)
  {
    var name := SubstringFrom1(cmdOrig);
    assert forall i | 0 <= i < |name| :: name[i] == cmdOrig[i + 1];
    NoBlank(name);
    var key := "LABEL_" + name;
    assert forall i | 6 <= i < |key| :: key[i] == name[i - 6];
    assert forall i | 0 <= i < 6 :: key[i] != ' ';
  }

  // ---------------------------------------------------------------------------------------
  // The code

  /** A code entry gives a byte exactly when it is a byte slot. */
  predicate Filled(e: Entry) {
    BareText(e) != "" <==> e.Byte?
  }

  /** An operand `immediate` accepts leaves some text in its slot. */
  lemma ImmediateFilled(token: string, symbols: Table)
    requires SpaceFree(symbols) && Immediate(token, symbols).Ok?
    ensures ValueBare(Immediate(token, symbols).value) != ""
  {
    if !IsLabelRef(token) && Lookup(symbols, token).Some? {
      LookupWord(symbols, token);
    }
  }

  /** A byte slot whose value leaves some text gives a byte, whatever its comment. */
  lemma SlotFilled(v: Value, comment: string)
    requires ValueBare(v) != ""
    ensures Filled(Byte(v, comment))
  {
  }

  lemma FilledPush(code: seq<Entry>, es: seq<Entry>)
    requires FilledSlots(code) && forall i | 0 <= i < |es| :: Filled(es[i])
    ensures FilledSlots(code + es)
  {
    var r := code + es;
    assert forall i | 0 <= i < |r| :: r[i] == if i < |code| then code[i] else es[i - |code|];
  }

  lemma FilledPrefix(code: seq<Entry>, n: nat)
    requires FilledSlots(code) && n <= |code|
    ensures FilledSlots(code[..n])
  {
    assert forall i | 0 <= i < n :: code[..n][i] == code[i];
  }

  lemma PadsFilled(count: nat)
    ensures forall i | 0 <= i < |Pads(count)| :: Filled(Pads(count)[i])
  {
    assert forall i | 0 <= i < count :: Pads(count)[i] == Byte(Pad, "");
  }

  lemma BlockFilled(e: Entry, ret: Value, target: Value, comment: string)
    requires Filled(e) && ValueBare(ret) != "" && ValueBare(target) != ""
    ensures var block := [Byte(ret, comment), e, Byte(target, ""), Byte(OpChar('='), comment)];
      forall i | 0 <= i < |block| :: Filled(block[i])
  {
    SlotFilled(ret, comment);
    SlotFilled(target, "");
    SlotFilled(OpChar('='), comment);
  }

  /** The calling sequence keeps every entry filled. */
  lemma CallSequenceFilled(s: AsmState, lead: seq<Entry>, ret: Value, target: Value, comment: string, count: nat)
    requires |s.code + lead| > 0 && FilledSlots(s.code + lead)
    requires ValueBare(ret) != "" && ValueBare(target) != ""
    ensures FilledSlots(CallSequence(s, lead, ret, target, comment, count).code)
  {
    var before := s.code + lead;
    var n := |before| - 1;
    var block := [Byte(ret, comment), before[n], Byte(target, ""), Byte(OpChar('='), comment)];
    FilledPrefix(before, n);
    BlockFilled(before[n], ret, target, comment);
    FilledPush(before[..n], block);
    PadsFilled(count);
    FilledPush(before[..n] + block, Pads(count));
    assert CallSequence(s, lead, ret, target, comment, count).code == before[..n] + block + Pads(count);
  }

  lemma CallWellFormed(s: AsmState, p: Parts, cmd: string, exchange: bool)
    requires WellFormed(s)
    requires exchange || |s.code| > 0 || !(1 <= |p.args| <= 2)
    requires CallStep(s, p, cmd, exchange).Ok?
    ensures WellFormed(CallStep(s, p, cmd, exchange).value)
  {
    CallStepIsSequence(s, p, cmd, exchange);
    ImmediateFilled(NumberText(ReturnAddress(s, p, exchange)), s.symbols);
    ImmediateFilled(p.args[0], s.symbols);
    assert forall i | 0 <= i < |Lead(exchange)| :: Filled(Lead(exchange)[i]);
    FilledPush(s.code, Lead(exchange));
    CallSequenceFilled(s, Lead(exchange), Immediate(NumberText(ReturnAddress(s, p, exchange)), s.symbols).value,
                       Immediate(p.args[0], s.symbols).value, p.comment, PadCount(PaddingOf(p)));
  }

  lemma OneOperandWellFormed(s: AsmState, p: Parts, cmd: string, op: char)
    requires WellFormed(s)
    requires OneOperandStep(s, p, cmd, op).Ok?
    ensures WellFormed(OneOperandStep(s, p, cmd, op).value)
  {
    var t := OneOperandStep(s, p, cmd, op).value;
    var opcode := Byte(OpChar(op), p.comment);
    if |p.args| == 1 {
      var v := Immediate(p.args[0], s.symbols).value;
      ImmediateFilled(p.args[0], s.symbols);
      SlotFilled(v, "");
      assert t.code == s.code + [Byte(v, ""), opcode];
      FilledPush(s.code, [Byte(v, ""), opcode]);
    } else {
      FilledPush(s.code, [opcode]);
    }
  }

  // ---------------------------------------------------------------------------------------
  // The fold

  lemma MarkerWellFormed(s: AsmState, p: Parts)
    requires WellFormed(s) && TokenizedParts(p)
    ensures WellFormed(MarkerStep(s, p).value)
  {
    if p.comment != "" {
      TrimTrimmed(p.comment);
    }
    FilledPush(s.code, [MarkerFor(p.comment)]);
  }

  lemma OriginWellFormed(s: AsmState, p: Parts)
    requires WellFormed(s)
    ensures WellFormed(OriginStep(s, p).value)
  {
    var t := OriginStep(s, p).value;
    NumberTextWord(t.origin);
    BindSpaceFree(s.symbols, OriginSymbol, NumberText(t.origin));
  }

  lemma ConstWellFormed(s: AsmState, p: Parts, cmd: string)
    requires WellFormed(s) && TokenizedParts(p)
    requires ConstStep(s, p, cmd).Ok?
    ensures WellFormed(ConstStep(s, p, cmd).value)
  {
    assert IsWord(p.args[0]) && IsWord(p.args[1]);
    NoBlank(p.args[0]);
    BindSpaceFree(s.symbols, p.args[0], p.args[1]);
  }

  lemma PushWellFormed(s: AsmState, p: Parts, cmd: string)
    requires WellFormed(s)
    requires PushStep(s, p, cmd).Ok?
    ensures WellFormed(PushStep(s, p, cmd).value)
  {
    var v := Immediate(p.args[0], s.symbols).value;
    ImmediateFilled(p.args[0], s.symbols);
    SlotFilled(v, p.comment);
    FilledPush(s.code, [Byte(v, p.comment)]);
  }

  lemma LabelWellFormed(s: AsmState, p: Parts)
    requires WellFormed(s) && TokenizedParts(p) && p.cmdOrig != ""
    requires LabelStep(s, p).Ok?
    ensures WellFormed(LabelStep(s, p).value)
  {
    var key := "LABEL_" + SubstringFrom1(p.cmdOrig);
    var value := NumberText(Add(Int(s.offset), s.origin));
    LabelNameFree(p.cmdOrig);
    NumberTextWord(Add(Int(s.offset), s.origin));
    BindSpaceFree(s.symbols, key, value);
    FilledPush(s.code, [Comment(p.trimmed)]);
  }

  /** Every line that assembles keeps the state well formed. */
  lemma StepWellFormed(s: AsmState, l: SourceLine, t: AsmState)
    requires WellFormed(s) && Tokenized(l)
    requires |s.code| > 0 || !IsCall1(l)
    requires Step(s, l) == Ok(t)
    ensures WellFormed(t)
  {
    var p := l.parts;
    var n := Next(s);
    match l.kind
    case NoCommand =>
      assert Ok(t) == MarkerStep(n, p);
      MarkerWellFormed(n, p);
    case OriginDirective =>
      assert Ok(t) == OriginStep(n, p);
      OriginWellFormed(n, p);
    case ConstDirective =>
      assert Ok(t) == ConstStep(n, p, l.cmd);
      ConstWellFormed(n, p, l.cmd);
    case PushOp =>
      assert Ok(t) == PushStep(n, p, l.cmd);
      PushWellFormed(n, p, l.cmd);
    case CallOp(exchange) =>
      assert Ok(t) == CallStep(n, p, l.cmd, exchange);
      CallWellFormed(n, p, l.cmd, exchange);
    case StopOp =>
      assert Ok(t) == StopStep(n, p);
      FilledPush(s.code, [Byte(Literal("0xff"), p.comment)]);
    case OneOperandOp(op) =>
      assert Ok(t) == OneOperandStep(n, p, l.cmd, op);
      OneOperandWellFormed(n, p, l.cmd, op);
    case SimpleOp(op) =>
      assert Ok(t) == SimpleStep(n, p, l.cmd, op);
      FilledPush(s.code, [Byte(OpChar(op), p.comment)]);
    case LabelDef =>
      assert Ok(t) == LabelStep(n, p);
      assert l.cmd != [] && p.cmdOrig != "";
      LabelWellFormed(n, p);
  }

  /** A run over tokenized lines keeps the state well formed. */
  lemma {:induction false} RunWellFormed(s: AsmState, ls: seq<SourceLine>)
    requires WellFormed(s)
    requires forall i | 0 <= i < |ls| :: Tokenized(ls[i])
    requires |s.code| > 0 || NoLeadingCall1(ls)
    requires Run(s, ls).Ok?
    ensures WellFormed(Run(s, ls).value)
    decreases |ls|
  {
    if ls != [] {
      var t := Step(s, ls[0]).value;
      StepWellFormed(s, ls[0], t);
      assert forall i | 0 <= i < |ls[1..]| :: ls[1..][i] == ls[i + 1];
      RunWellFormed(t, ls[1..]);
    }
  }

  /**
    A program `HLSPL` returns is the final state of the fold, whose code meets `FilledSlots`,
    whose table has distinct, space-free names, and whose `offset` counts the byte slots.
   */
  lemma AssembledWellFormed(source: string)
    requires NoLeadingCall1(SourceLines(source))
    requires Assemble(source).Ok?
    ensures Run(Initial, SourceLines(source)).Ok?
    ensures var s := Run(Initial, SourceLines(source)).value;
      && Assemble(source).value == Program(s.origin, s.code, Defines(s.symbols))
      && FilledSlots(s.code) && SpaceFree(s.symbols) && UniqueKeys(s.symbols)
      && s.offset == ByteCount(s.code) == TotalWidth(SourceLines(source))
  {
    var ls := SourceLines(source);
    SourceLinesTokenized(source);
    assert WellFormed(Initial) && Good(Initial);
    RunWellFormed(Initial, ls);
    RunWidth(Initial, ls);
  }

  /**
    The bytes `SPLBytes` reads from a program `HLSPL` returns are as many as its byte slots, which
    is the final `offset`; each byte slot gives the byte at its rank among the slots.
   */
  lemma AssembledByteCount(source: string, bs: seq<nat>)
    requires NoLeadingCall1(SourceLines(source))
    requires Assemble(source).Ok? && ExtractBytes(Assemble(source).value) == Ok(bs)
    ensures var p := Assemble(source).value;
      && |bs| == ByteCount(p.code) == Run(Initial, SourceLines(source)).value.offset
      && forall i | 0 <= i < |p.code| && p.code[i].Byte? ::
           ByteCount(p.code[..i]) < |bs| && DecodeEntry(p.code[i], DefinesToMap(p.defines)) == Ok(Some(bs[ByteCount(p.code[..i])]))
  {
    var p := Assemble(source).value;
    var m := DefinesToMap(p.defines);
    AssembledWellFormed(source);
    ExtractedCount(p.code, m, bs);
    forall i | 0 <= i < |p.code| && p.code[i].Byte?
      ensures ByteCount(p.code[..i]) < |bs| && DecodeEntry(p.code[i], m) == Ok(Some(bs[ByteCount(p.code[..i])]))
    {
      ExtractedAt(p.code, m, bs, i);
    }
  }

  /**
    The defines of a program `HLSPL` returns read back as its symbol table: every symbol, and
    no other name, is bound to the number its text parses to.
   */
  lemma AssembledDefines(source: string)
    requires NoLeadingCall1(SourceLines(source))
    requires Assemble(source).Ok?
    ensures var t := Run(Initial, SourceLines(source)).value.symbols;
      var m := DefinesToMap(Assemble(source).value.defines);
      && (forall k :: k in m <==> k in Keys(t))
      && (forall k | k in Keys(t) :: m[k] == ParseNumeral(Lookup(t, k).value))
  {
    AssembledWellFormed(source);
    DefinesRoundTrip(Run(Initial, SourceLines(source)).value.symbols);
  }
}
