/**
  Concrete runs of the assembler and of the byte reader on the small programs of the
  repository's unit tests (src/hlspl.spec.ts:5-31), each stated as a lemma.
 */
module Examples {
  import opened Results
  import opened Strings
  import opened Numerals
  import opened Opcodes
  import opened Symbols
  import opened CodeLines
  import opened Errors
  import opened Immediates
  import opened LineSyntax
  import opened Encoder
  import opened ByteExtract

  // ---------------------------------------------------------------------------------------
  // Helpers: reading plain source lines

  /** A source line of plain words separated by single spaces is parsed into those words. */
  lemma PlainLine(ws: seq<string>)
    requires |ws| >= 1 && forall k | 0 <= k < |ws| :: IsPlainWord(ws[k])
    ensures Parse(Join(ws, " ")) ==
      SourceLine(Parts(Join(ws, " "), "", ws[0], ws[1..]), ToUpper(ws[0]), Classify(ToUpper(ws[0])))
  {
    PlainLineTokens(ws);
  }

  /** A source text without line breaks is one line. */
  lemma OneLineSource(src: string)
    requires '\n' !in src
    ensures Split(src, '\n') == [src]
    ensures SourceLines(src) == [Parse(src)]
  {
    IndexOfAbsent(src, '\n', 0);
    assert ParseAll([src])[0] == Parse(src);
  }

  /** A fold over one line is that line's step. */
  lemma RunOne(s: AsmState, l: SourceLine)
    requires |s.code| > 0 || !IsCall1(l)
    ensures |s.code| > 0 || NoLeadingCall1([l])
    ensures Run(s, [l]) == Step(s, l)
  {
    assert [l][1..] == [];
  }

  /** The state before the first line, with the line counter at 1. */
  const First: AsmState := AsmState(1, 0, Int(DefaultOrigin), [], [])

  lemma NextInitial()
    ensures Next(Initial) == First
  {
  }

  lemma SmallNumerals()
    ensures ParseNumeral("22") == Int(22)
    ensures ParseNumeral("64") == Int(64)
    ensures ParseNumeral("10") == Int(10)
  {
    assert "22"[..1] == "2" && "64"[..1] == "6" && "10"[..1] == "1";
    assert "2"[..0] == [] && "6"[..0] == [] && "1"[..0] == [];
  }

  lemma HexNumeral()
    ensures ParseNumeral("0x36") == Int(0x36)
  {
    assert "0x36"[2..] == "36" && "36"[..1] == "3" && "3"[..0] == [];
  }

  /** 22 and 10 are not codes of opcode characters; 64 is the code of `@`, the opcode of `LOOP`. */
  lemma SmallCodes()
    ensures !IsReservedCode(22) && !IsReservedCode(10) && IsReservedCode(64)
  {
    Free22();
    Free10();
    ReservedChar('@');
  }

  lemma Free22()
    ensures !IsReservedCode(22)
  {
    assert FindCode(OpCodeChars, 22, 0) == |OpCodeChars|;
  }

  lemma Free10()
    ensures !IsReservedCode(10)
  {
    assert FindCode(OpCodeChars, 10, 0) == |OpCodeChars|;
  }

  /** Letters, digits and `_`: words that hold neither white space nor a comment marker. */
  predicate IsAlnumWord(w: string) {
    w != [] && forall i | 0 <= i < |w| :: 'A' <= w[i] <= 'Z' || 'a' <= w[i] <= 'z' || '0' <= w[i] <= '9' || w[i] == '_'
  }

  lemma AlnumIsPlain(w: string)
    requires IsAlnumWord(w)
    ensures IsPlainWord(w)
  {
  }

  /** A one-line source of alphanumeric words is one source line with those words and no comment. */
  lemma PlainSource(ws: seq<string>, cmd: string, kind: Kind)
    requires |ws| >= 1 && forall k | 0 <= k < |ws| :: IsAlnumWord(ws[k])
    requires ToUpper(ws[0]) == cmd && Classify(cmd) == kind
    ensures SourceLines(Join(ws, " ")) == [SourceLine(Parts(Join(ws, " "), "", ws[0], ws[1..]), cmd, kind)]
  {
    forall k | 0 <= k < |ws| ensures IsPlainWord(ws[k]) {
      AlnumIsPlain(ws[k]);
    }
    var src := Join(ws, " ");
    JoinAvoids(ws, '\n');
    OneLineSource(src);
    PlainLine(ws);
  }

  lemma PushMnemonic()
    ensures ToUpper("PUSH") == "PUSH" && Classify("PUSH") == PushOp
  {
  }

  lemma AddMnemonic()
    ensures ToUpper("ADD") == "ADD" && Classify("ADD") == OneOperandOp('+')
  {
  }

  lemma XchgMnemonic()
    ensures ToUpper("XCHG") == "XCHG" && Classify("XCHG") == SimpleOp('x')
  {
  }

  lemma ConstMnemonic()
    ensures ToUpper("CONST") == "CONST" && Classify("CONST") == ConstDirective
  {
  }

  // ---------------------------------------------------------------------------------------
  // `PUSH 22` gives the slot `22,`

  lemma Push22Line()
    ensures SourceLines("PUSH 22") == [SourceLine(Parts("PUSH 22", "", "PUSH", ["22"]), "PUSH", PushOp)]
  {
    assert Join(["PUSH", "22"], " ") == "PUSH 22";
    PushMnemonic();
    PlainSource(["PUSH", "22"], "PUSH", PushOp);
  }

  /** The literals of the examples resolve to themselves when no name is defined. */
  lemma SmallImmediates()
    ensures Immediate("22", []) == Ok(Literal("22"))
    ensures Immediate("10", []) == Ok(Literal("10"))
  {
    SmallNumerals();
    SmallCodes();
  }

  lemma Push22Step()
    ensures Step(Initial, SourceLine(Parts("PUSH 22", "", "PUSH", ["22"]), "PUSH", PushOp)) ==
      Ok(AsmState(1, 1, Int(16), [], [Byte(Literal("22"), "")]))
  {
    NextInitial();
    SmallImmediates();
    assert First.code + [Byte(Literal("22"), "")] == [Byte(Literal("22"), "")];
  }

  /** `HLSPL('PUSH 22').code` is `['22,']`. */
  lemma Push22()
    ensures NoLeadingCall1(SourceLines("PUSH 22"))
    ensures Assemble("PUSH 22") == Ok(Program(Int(16), [Byte(Literal("22"), "")], []))
  {
    Push22Line();
    Push22Step();
    RunOne(Initial, SourceLine(Parts("PUSH 22", "", "PUSH", ["22"]), "PUSH", PushOp));
    assert Defines([]) == [];
  }

  // ---------------------------------------------------------------------------------------
  // `PUSH 64` is rejected: 64 is the code of `@`

  lemma Push64Line()
    ensures SourceLines("PUSH 64") == [SourceLine(Parts("PUSH 64", "", "PUSH", ["64"]), "PUSH", PushOp)]
  {
    assert Join(["PUSH", "64"], " ") == "PUSH 64";
    PushMnemonic();
    PlainSource(["PUSH", "64"], "PUSH", PushOp);
  }

  lemma Push64Step()
    ensures Step(Initial, SourceLine(Parts("PUSH 64", "", "PUSH", ["64"]), "PUSH", PushOp)) ==
      Err(AsmError(1, ReservedValue("64")))
  {
    NextInitial();
    SmallNumerals();
    SmallCodes();
    assert Immediate("64", []) == Err(ReservedValue("64"));
  }

  lemma Push64Message()
    ensures AsmError(1, ReservedValue("64")).Message() == "Line " + "1" + ": " + "PUSH reserved value: " + "64"
  {
    assert NatToString(1) == "1";
  }

  /** `HLSPL('PUSH 64')` throws `Line 1: PUSH reserved value: 64`. */
  lemma Push64()
    ensures NoLeadingCall1(SourceLines("PUSH 64"))
    ensures Assemble("PUSH 64") == Err(AsmError(1, ReservedValue("64")))
    ensures Assemble("PUSH 64").error.Message() == "Line " + "1" + ": " + "PUSH reserved value: " + "64"
  {
    Push64Line();
    Push64Step();
    RunOne(Initial, SourceLine(Parts("PUSH 64", "", "PUSH", ["64"]), "PUSH", PushOp));
    Push64Message();
  }

  // ---------------------------------------------------------------------------------------
  // `PUSH` without an argument is rejected

  lemma PushBareLine()
    ensures SourceLines("PUSH") == [SourceLine(Parts("PUSH", "", "PUSH", []), "PUSH", PushOp)]
  {
    var ws := ["PUSH"];
    assert Join(ws, " ") == "PUSH" && ws[0] == "PUSH" && ws[1..] == [];
    PushMnemonic();
    PlainSource(ws, "PUSH", PushOp);
  }

  lemma PushBareStep()
    ensures Step(Initial, SourceLine(Parts("PUSH", "", "PUSH", []), "PUSH", PushOp)) == Err(AsmError(1, ArgCount("PUSH")))
  {
    NextInitial();
  }

  lemma PushBareMessage()
    ensures AsmError(1, ArgCount("PUSH")).Message() == "Line " + "1" + ": " + "Invalid number of arguments to " + "PUSH"
  {
    assert NatToString(1) == "1";
  }

  /** `HLSPL('PUSH')` throws `Line 1: Invalid number of arguments to PUSH`. */
  lemma PushBare()
    ensures NoLeadingCall1(SourceLines("PUSH"))
    ensures Assemble("PUSH") == Err(AsmError(1, ArgCount("PUSH")))
    ensures Assemble("PUSH").error.Message() == "Line " + "1" + ": " + "Invalid number of arguments to " + "PUSH"
  {
    PushBareLine();
    PushBareStep();
    RunOne(Initial, SourceLine(Parts("PUSH", "", "PUSH", []), "PUSH", PushOp));
    PushBareMessage();
  }

  // ---------------------------------------------------------------------------------------
  // `ADD 10` gives the operand, then the opcode

  lemma Add10Line()
    ensures SourceLines("ADD 10") == [SourceLine(Parts("ADD 10", "", "ADD", ["10"]), "ADD", OneOperandOp('+'))]
  {
    assert Join(["ADD", "10"], " ") == "ADD 10";
    AddMnemonic();
    PlainSource(["ADD", "10"], "ADD", OneOperandOp('+'));
  }

  lemma Add10Step()
    ensures Step(Initial, SourceLine(Parts("ADD 10", "", "ADD", ["10"]), "ADD", OneOperandOp('+'))) ==
      Ok(AsmState(1, 2, Int(16), [], [Byte(Literal("10"), ""), Byte(OpChar('+'), "")]))
  {
    NextInitial();
    SmallImmediates();
    assert First.code + [Byte(Literal("10"), ""), Byte(OpChar('+'), "")] == [Byte(Literal("10"), ""), Byte(OpChar('+'), "")];
  }

  /** `HLSPL('ADD 10').code` is `['10,', "'+',"]`. */
  lemma Add10()
    ensures NoLeadingCall1(SourceLines("ADD 10"))
    ensures Assemble("ADD 10") == Ok(Program(Int(16), [Byte(Literal("10"), ""), Byte(OpChar('+'), "")], []))
  {
    Add10Line();
    Add10Step();
    RunOne(Initial, SourceLine(Parts("ADD 10", "", "ADD", ["10"]), "ADD", OneOperandOp('+')));
    assert Defines([]) == [];
  }

  // ---------------------------------------------------------------------------------------
  // `XCHG` gives its opcode

  lemma XchgLine()
    ensures SourceLines("XCHG") == [SourceLine(Parts("XCHG", "", "XCHG", []), "XCHG", SimpleOp('x'))]
  {
    var ws := ["XCHG"];
    assert Join(ws, " ") == "XCHG" && ws[0] == "XCHG" && ws[1..] == [];
    XchgMnemonic();
    PlainSource(ws, "XCHG", SimpleOp('x'));
  }

  lemma XchgStep()
    ensures Step(Initial, SourceLine(Parts("XCHG", "", "XCHG", []), "XCHG", SimpleOp('x'))) ==
      Ok(AsmState(1, 1, Int(16), [], [Byte(OpChar('x'), "")]))
  {
    NextInitial();
    assert First.code + [Byte(OpChar('x'), "")] == [Byte(OpChar('x'), "")];
  }

  /** `HLSPL('XCHG').code` is `["'x',"]`. */
  lemma Xchg()
    ensures NoLeadingCall1(SourceLines("XCHG"))
    ensures Assemble("XCHG") == Ok(Program(Int(16), [Byte(OpChar('x'), "")], []))
  {
    XchgLine();
    XchgStep();
    RunOne(Initial, SourceLine(Parts("XCHG", "", "XCHG", []), "XCHG", SimpleOp('x')));
    assert Defines([]) == [];
  }

  /** The slots of these examples render as the strings the unit tests expect. */
  lemma ExampleTexts()
    ensures Render(Byte(Literal("22"), "")) == "22,"
    ensures Render(Byte(Literal("10"), "")) == "10,"
    ensures Render(Byte(OpChar('+'), "")) == "'+',"
    ensures Render(Byte(OpChar('x'), "")) == "'x',"
  {
  }

  // ---------------------------------------------------------------------------------------
  // A constant is substituted with its name as a comment, and reads back as its value

  /** A line of alphanumeric words is parsed into those words. */
  lemma PlainParsed(ws: seq<string>, cmd: string, kind: Kind)
    requires |ws| >= 1 && forall k | 0 <= k < |ws| :: IsAlnumWord(ws[k])
    requires ToUpper(ws[0]) == cmd && Classify(cmd) == kind
    ensures '\n' !in Join(ws, " ")
    ensures Parse(Join(ws, " ")) == SourceLine(Parts(Join(ws, " "), "", ws[0], ws[1..]), cmd, kind)
  {
    forall k | 0 <= k < |ws| ensures IsPlainWord(ws[k]) {
      AlnumIsPlain(ws[k]);
    }
    JoinAvoids(ws, '\n');
    PlainLine(ws);
  }

  /** Two lines joined by a line break are two source lines. */
  lemma TwoLineSource(a: string, b: string)
    requires '\n' !in a && '\n' !in b
    ensures SourceLines(a + "\n" + b) == [Parse(a), Parse(b)]
  {
    TwoLineSplit(a, b);
    ParseTwo(a, b);
  }

  lemma TwoLineSplit(a: string, b: string)
    requires '\n' !in a && '\n' !in b
    ensures Split(a + "\n" + b, '\n') == [a, b]
  {
    var parts := [a, b];
    assert parts[1..] == [b];
    assert Join(parts, "\n") == a + "\n" + b;
    SplitOfJoin(parts, '\n');
  }

  lemma ParseTwo(a: string, b: string)
    ensures ParseAll([a, b]) == [Parse(a), Parse(b)]
  {
    var lines := [a, b];
    assert lines[0] == a && lines[1] == b;
    ParsePair(lines);
  }

  lemma ParsePair(lines: seq<string>)
    requires |lines| == 2
    ensures ParseAll(lines) == [Parse(lines[0]), Parse(lines[1])]
  {
    var ls := ParseAll(lines);
    PairOf(ls, Parse(lines[0]), Parse(lines[1]));
  }

  lemma PairOf(ls: seq<SourceLine>, x: SourceLine, y: SourceLine)
    requires |ls| == 2 && ls[0] == x && ls[1] == y
    ensures ls == [x, y]
  {
  }

  /** A fold over two lines is the two steps in turn. */
  lemma RunTwo(s: AsmState, l1: SourceLine, l2: SourceLine, t: AsmState)
    requires |s.code| > 0 || !IsCall1(l1)
    requires Step(s, l1) == Ok(t) && (|t.code| > 0 || !IsCall1(l2))
    ensures |s.code| > 0 || NoLeadingCall1([l1, l2])
    ensures Run(s, [l1, l2]) == Step(t, l2)
  {
    assert [l1, l2][1..] == [l2];
    RunOne(t, l2);
    if |s.code| == 0 && PushesNothing(l1) {
      assert t.code == s.code;
    }
  }

  const ConstLine: string := "CONST ADDR_PIN 0x36"
  const UseLine: string := "PUSH ADDR_PIN"
  const PinTable: Table := [("ADDR_PIN", "0x36")]
  const PinSlot: Entry := Byte(Named("0x36", "ADDR_PIN"), "")
  const ConstSource: SourceLine := SourceLine(Parts(ConstLine, "", "CONST", ["ADDR_PIN", "0x36"]), "CONST", ConstDirective)
  const UseSource: SourceLine := SourceLine(Parts(UseLine, "", "PUSH", ["ADDR_PIN"]), "PUSH", PushOp)

  lemma ConstParsed()
    ensures '\n' !in ConstLine
    ensures Parse(ConstLine) == ConstSource
  {
    var ws := ["CONST", "ADDR_PIN", "0x36"];
    ConstWords();
    ConstMnemonic();
    PlainParsed(ws, "CONST", ConstDirective);
  }

  lemma ConstWords()
    ensures Join(["CONST", "ADDR_PIN", "0x36"], " ") == ConstLine
    ensures forall k | 0 <= k < 3 :: IsAlnumWord(["CONST", "ADDR_PIN", "0x36"][k])
    ensures ["CONST", "ADDR_PIN", "0x36"][1..] == ["ADDR_PIN", "0x36"]
  {
    var ws := ["CONST", "ADDR_PIN", "0x36"];
    assert ws[1..] == ["ADDR_PIN", "0x36"] && ws[1..][1..] == ["0x36"];
    assert IsAlnumWord(ws[0]) && IsAlnumWord(ws[1]) && IsAlnumWord(ws[2]);
  }

  lemma UseParsed()
    ensures '\n' !in UseLine
    ensures Parse(UseLine) == UseSource
  {
    var ws := ["PUSH", "ADDR_PIN"];
    assert Join(ws, " ") == UseLine && ws[0] == "PUSH" && ws[1..] == ["ADDR_PIN"];
    PushMnemonic();
    PlainParsed(ws, "PUSH", PushOp);
  }

  const Defined: AsmState := AsmState(1, 0, Int(16), PinTable, [])

  lemma ConstStepped()
    ensures Step(Initial, ConstSource) == Ok(Defined)
  {
    NextInitial();
    assert Lookup([], "ADDR_PIN") == None;
    assert Bind([], "ADDR_PIN", "0x36") == PinTable;
  }

  lemma PinImmediate()
    ensures Immediate("ADDR_PIN", PinTable) == Ok(Named("0x36", "ADDR_PIN"))
  {
    assert !IsLabelRef("ADDR_PIN");
    assert Lookup(PinTable, "ADDR_PIN") == Some("0x36");
  }

  lemma UseStepped()
    ensures Step(Defined, UseSource) == Ok(AsmState(2, 1, Int(16), PinTable, [PinSlot]))
  {
    PinImmediate();
    assert Next(Defined).code + [PinSlot] == [PinSlot];
  }

  lemma PinDefines()
    ensures Defines(PinTable) == ["#define ADDR_PIN 0x36"]
  {
    assert DefineLine("ADDR_PIN", "0x36") == "#define ADDR_PIN 0x36";
  }

  /** `CONST ADDR_PIN 0x36` then `PUSH ADDR_PIN` gives the slot `0x36 /* ADDR_PIN */,` and the define of the constant. */
  lemma ConstSubstitution()
    ensures NoLeadingCall1(SourceLines(ConstLine + "\n" + UseLine))
    ensures Assemble(ConstLine + "\n" + UseLine) == Ok(Program(Int(16), [PinSlot], ["#define ADDR_PIN 0x36"]))
  {
    ConstParsed();
    UseParsed();
    TwoLineSource(ConstLine, UseLine);
    ConstStepped();
    UseStepped();
    RunTwo(Initial, ConstSource, UseSource, Defined);
    PinDefines();
  }

  /** The slot renders as `0x36 /* ADDR_PIN */,`, the string the unit test expects. */
  lemma PinSlotText()
    ensures Render(PinSlot) == "0x36 /* ADDR_PIN */,"
  {
  }

  lemma PinMap()
    ensures DefinesToMap(Defines(PinTable)) == map["ADDR_PIN" := Int(0x36)]
  {
    PinTableShape();
    DefinesRoundTrip(PinTable);
    HexNumeral();
    SingletonMap(DefinesToMap(Defines(PinTable)), "ADDR_PIN", Int(0x36));
  }

  lemma PinTableShape()
    ensures Keys(PinTable) == ["ADDR_PIN"] && Lookup(PinTable, "ADDR_PIN") == Some("0x36")
    ensures UniqueKeys(PinTable) && SpaceFree(PinTable)
  {
    AlnumIsPlain("0x36");
  }

  lemma SingletonMap(m: DefineMap, k: string, v: Number)
    requires forall j :: j in m <==> j in [k]
    requires k in m && m[k] == v
    ensures m == map[k := v]
  {
    assert m.Keys == {k};
  }

  lemma PinDecoded()
    ensures DecodeEntry(PinSlot, map["ADDR_PIN" := Int(0x36)]) == Ok(Some(0x36))
  {
    assert BareText(PinSlot) == "0x36";
    assert "0x36" != "ADDR_PIN";
    assert IsHexLiteral("0x36");
    HexNumeral();
  }

  lemma CollectOne(r: Outcome)
    ensures Collect([r]) == if r.Err? then Err(r.error) else Ok(Kept(r.value))
  {
    assert [r][..0] == [];
    assert Collect([]) == Ok([]);
    if r.Ok? {
      assert [] + Kept(r.value) == Kept(r.value);
    }
  }

  /** Reading the bytes of the program of `CONST ADDR_PIN 0x36` and `PUSH ADDR_PIN` gives the value of the constant, 0x36. */
  lemma PinBytes()
    ensures ExtractBytes(Program(Int(16), [PinSlot], Defines(PinTable))) == Ok([0x36])
  {
    var m := map["ADDR_PIN" := Int(0x36)];
    PinMap();
    PinDecoded();
    assert Decoded([PinSlot], m) == [Ok(Some(0x36))];
    CollectOne(Ok(Some(0x36)));
  }
}
