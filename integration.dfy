/**
  The program record of the repository's integration test (src/hlspl.spec.ts:34-118), written
  out as the assembler leaves it, and the 28 bytes the byte reader takes from it. The code is
  split into the blocks of the test's source, and each block is read slot by slot with the
  decoding lemmas of `ByteExtract`.
 */
module Integration {
  import opened Results
  import opened Strings
  import opened Numerals
  import opened Symbols
  import opened CodeLines
  import opened Encoder
  import opened ByteExtract

  /** `.ORIGIN 0`, the three constants, and the two labels at the addresses 3 and 11. */
  const IntegrationTable: Table := [
    ("SPELL_ORIGIN", "0"), ("PINA", "0x39"), ("DDRA", "0x3A"), ("PORTA", "0x3B"),
    ("LABEL_Start", "3"), ("LABEL_Wait", "11")]

  const Names: seq<string> := ["SPELL_ORIGIN", "PINA", "DDRA", "PORTA", "LABEL_Start", "LABEL_Wait"]

  /** The blank lines, the directives, the comment line, then `PUSH 127` and `WRITE DDRA`. */
  const Setup: seq<Entry> := [
    Blank, Blank, Blank, Comment("Configure the first 7 uo_out pins as outputs"),
    Byte(Literal("127"), ""), Byte(Named("0x3A", "DDRA"), ""), Byte(OpChar('w'), "")]

  /** `:Start` and the five pushes of the message, each with its comment. */
  const Message: seq<Entry> := [
    Comment(":Start"), Byte(Literal("0"), " null terminator"), Byte(Literal("129"), " !"),
    Byte(Literal("57"), " L"), Byte(Literal("57"), " L"),
    Byte(Literal("244"), " E (actually 122, hence we SHR next)")]

  /** `SHR`, two more pushes, `:Wait`, then `DUP`, `AND 0` and `XOR`. */
  const Shift: seq<Entry> := [
    Byte(OpChar('>'), ""), Byte(Literal("116"), " P"), Byte(Literal("109"), " S"),
    Comment(":Wait"), Byte(OpChar('2'), ""), Byte(Literal("0"), ""), Byte(OpChar('&'), ""),
    Byte(OpChar('^'), "")]

  /** `WRITE PORTA`, `DELAY 250`, `PUSH 0`, `WRITE PORTA`, `DELAY 25`. */
  const Blink: seq<Entry> := [
    Byte(Named("0x3B", "PORTA"), ""), Byte(OpChar('w'), ""), Byte(Literal("250"), ""),
    Byte(OpChar(','), ""), Byte(Literal("0"), ""), Byte(Named("0x3B", "PORTA"), ""),
    Byte(OpChar('w'), ""), Byte(Literal("25"), ""), Byte(OpChar(','), "")]

  /** `LOOP @Wait`, `JMP @Start`, and the empty last line. */
  const Jumps: seq<Entry> := [
    Byte(LabelRef("Wait"), ""), Byte(OpChar('@'), ""), Byte(LabelRef("Start"), ""),
    Byte(OpChar('='), ""), Blank]

  const IntegrationCode: seq<Entry> := Setup + Message + Shift + Blink + Jumps

  const IntegrationProgram: Program := Program(Int(0), IntegrationCode, Defines(IntegrationTable))

  /** The bytes the test expects. */
  const IntegrationBytes: seq<nat> := [
    127, 58, 119, 0, 129, 57, 57, 244, 62, 116, 109, 50, 0, 38, 94, 59, 119, 250, 44, 0, 59, 119,
    25, 44, 11, 64, 3, 61]

  // ---------------------------------------------------------------------------------------
  // The defines

  /** What the test's define table is once read: names that start with a capital letter, and the two labels. */
  predicate Shaped(m: DefineMap) {
    && (forall k | k in m :: k != [] && 'A' <= k[0] <= 'Z')
    && "LABEL_Start" in m && m["LABEL_Start"] == Int(3)
    && "LABEL_Wait" in m && m["LABEL_Wait"] == Int(11)
  }

  lemma TableKeys()
    ensures Keys(IntegrationTable) == Names
  {
  }

  lemma TableUnique()
    ensures UniqueKeys(IntegrationTable)
  {
  }

  lemma TableSpaceFree()
    ensures SpaceFree(IntegrationTable)
  {
  }

  lemma TableLabels()
    ensures Lookup(IntegrationTable, "LABEL_Start") == Some("3")
    ensures Lookup(IntegrationTable, "LABEL_Wait") == Some("11")
  {
  }

  lemma LabelNumerals()
    ensures ParseNumeral("3") == Int(3) && ParseNumeral("11") == Int(11)
  {
    Decimal1("3");
    Decimal2("11");
  }

  /** Reading the defines of a table shaped like the test's gives a map `Shaped` describes. */
  lemma ShapedDefines(t: Table)
    requires UniqueKeys(t) && SpaceFree(t) && Keys(t) == Names
    requires Lookup(t, "LABEL_Start") == Some("3") && Lookup(t, "LABEL_Wait") == Some("11")
    ensures Shaped(DefinesToMap(Defines(t)))
  {
    DefinesRoundTrip(t);
    LabelNumerals();
    assert forall k | k in Names :: k != [] && 'A' <= k[0] <= 'Z' by {
      forall k | k in Names ensures k != [] && 'A' <= k[0] <= 'Z' {
        var i :| 0 <= i < |Names| && Names[i] == k;
        if i == 0 {} else if i == 1 {} else if i == 2 {} else if i == 3 {} else if i == 4 {} else {}
      }
    }
  }

  lemma IntegrationMap()
    ensures Shaped(DefinesToMap(Defines(IntegrationTable)))
  {
    TableKeys();
    TableUnique();
    TableSpaceFree();
    TableLabels();
    ShapedDefines(IntegrationTable);
  }

  // ---------------------------------------------------------------------------------------
  // Numerals of one to three digits

  lemma Decimal1(s: string)
    requires |s| == 1 && IsDigit(s[0])
    ensures ParseNumeral(s) == Int(DigitValue(s[0]))
  {
    assert IsDecimalLiteral(s) && !IsHexLiteral(s);
    assert s[..0] == [];
    assert ValueIn(s, 10) == ValueIn(s[..0], 10) * 10 + DigitValue(s[0]);
  }

  lemma Decimal2(s: string)
    requires |s| == 2 && IsDigit(s[0]) && IsDigit(s[1])
    ensures ParseNumeral(s) == Int(10 * DigitValue(s[0]) + DigitValue(s[1]))
  {
    assert IsDecimalLiteral(s) && !IsHexLiteral(s);
    var a := s[..1];
    assert a[..0] == [] && a[0] == s[0];
    assert ValueIn(a, 10) == DigitValue(s[0]);
  }

  lemma Decimal3(s: string)
    requires |s| == 3 && IsDigit(s[0]) && IsDigit(s[1]) && IsDigit(s[2])
    ensures ParseNumeral(s) == Int(100 * DigitValue(s[0]) + 10 * DigitValue(s[1]) + DigitValue(s[2]))
  {
    assert IsDecimalLiteral(s) && !IsHexLiteral(s);
    var a, b := s[..1], s[..2];
    assert b[..1] == a && b[1] == s[1] && a[..0] == [] && a[0] == s[0];
    assert ValueIn(a, 10) == DigitValue(s[0]);
    assert ValueIn(b, 10) == 10 * DigitValue(s[0]) + DigitValue(s[1]);
  }

  lemma Hex2(s: string)
    requires |s| == 4 && s[0] == '0' && s[1] == 'x' && IsHexDigit(s[2]) && IsHexDigit(s[3])
    ensures ParseNumeral(s) == Int(16 * DigitValue(s[2]) + DigitValue(s[3]))
  {
    var h := s[2..];
    assert IsHexLiteral(s);
    var a := h[..1];
    assert a[..0] == [] && a[0] == s[2] && h[1] == s[3] && |h| == 2;
    assert ValueIn(a, 16) == DigitValue(s[2]);
  }

  // ---------------------------------------------------------------------------------------
  // Reading a block

  /** A text with a character that is not white space survives `trim`. */
  lemma NonBlankAt(s: string, k: nat)
    requires k < |s| && !IsSpace(s[k])
    ensures Trim(s) != "" && PlainComment(s)
  {
  }

  /** The bytes the `filter` keeps of results that all succeed. */
  function KeptAll(os: seq<Option<nat>>): seq<nat>
    decreases |os|
  {
    if os == [] then [] else Kept(os[0]) + KeptAll(os[1..])
  }

  lemma {:induction false} KeptAllLast(os: seq<Option<nat>>)
    requires os != []
    ensures KeptAll(os) == KeptAll(os[..|os| - 1]) + Kept(os[|os| - 1])
    decreases |os|
  {
    if |os| > 1 {
      var rest := os[1..];
      KeptAllLast(rest);
      assert rest[..|rest| - 1] == os[..|os| - 1][1..];
    }
  }

  /** Code whose every line decodes to the result in `os` reads as the bytes kept of `os`. */
  lemma {:induction false} DecodedAs(code: seq<Entry>, m: DefineMap, os: seq<Option<nat>>)
    requires |os| == |code|
    requires forall i | 0 <= i < |code| :: DecodeEntry(code[i], m) == Ok(os[i])
    ensures DecodeAll(code, m) == Ok(KeptAll(os))
    decreases |code|
  {
    if code != [] {
      var n := |code| - 1;
      DecodedPrefix(code, m, n);
      DecodedAs(code[..n], m, os[..n]);
      KeptAllLast(os);
    }
  }

  /**
    A block of at most nine lines reads as the bytes kept of `os` when each of its lines decodes
    to the result in `os` at the same index.
   */
  lemma ReadBlock(code: seq<Entry>, m: DefineMap, os: seq<Option<nat>>)
    requires |code| == |os| <= 9
    requires 0 < |code| ==> DecodeEntry(code[0], m) == Ok(os[0])
    requires 1 < |code| ==> DecodeEntry(code[1], m) == Ok(os[1])
    requires 2 < |code| ==> DecodeEntry(code[2], m) == Ok(os[2])
    requires 3 < |code| ==> DecodeEntry(code[3], m) == Ok(os[3])
    requires 4 < |code| ==> DecodeEntry(code[4], m) == Ok(os[4])
    requires 5 < |code| ==> DecodeEntry(code[5], m) == Ok(os[5])
    requires 6 < |code| ==> DecodeEntry(code[6], m) == Ok(os[6])
    requires 7 < |code| ==> DecodeEntry(code[7], m) == Ok(os[7])
    requires 8 < |code| ==> DecodeEntry(code[8], m) == Ok(os[8])
    ensures DecodeAll(code, m) == Ok(KeptAll(os))
  {
    forall i | 0 <= i < |code| ensures DecodeEntry(code[i], m) == Ok(os[i]) {
      assert i in {0, 1, 2, 3, 4, 5, 6, 7, 8};
    }
    DecodedAs(code, m, os);
  }

}

/** The slots of the integration test's program, decoded one by one under its defines. */
module IntegrationSlots {
  import opened Results
  import opened Strings
  import opened Numerals
  import opened Symbols
  import opened CodeLines
  import opened Encoder
  import opened ByteExtract
  import opened Integration

  // ---------------------------------------------------------------------------------------
  // What each kind of slot decodes to under the test's defines

  /** A decimal numeral is no define of the test, so it decodes to its value. */
  lemma NumeralSlot(text: string, comment: string, m: DefineMap, n: nat)
    requires Shaped(m) && PlainComment(comment) && ParseNumeral(text) == Int(n)
    ensures DecodeEntry(Byte(Literal(text), comment), m) == Ok(Some(n))
  {
    LiteralDecodes(text, comment, m);
  }

  /** So does a `0x` numeral put in place of a constant. */
  lemma ConstantSlot(text: string, name: string, m: DefineMap, n: nat)
    requires Shaped(m) && ParseNumeral(text) == Int(n)
    ensures DecodeEntry(Byte(Named(text, name), ""), m) == Ok(Some(n))
  {
    NamedDecodes(text, name, "", m);
  }

  /** An opcode slot decodes to the code of its character. */
  lemma OpSlot(op: char, m: DefineMap)
    requires Shaped(m) && IsDotChar(op)
    ensures DecodeEntry(Byte(OpChar(op), ""), m) == Ok(Some(op as nat))
  {
    OpCharDecodes(op, "", m);
  }

  /** A label reference decodes to the address the defines give the label. */
  lemma LabelSlot(symbol: string, m: DefineMap, n: nat)
    requires '\'' !in symbol && "LABEL_" + symbol in m && m["LABEL_" + symbol] == Int(n) && n != 0
    ensures DecodeEntry(Byte(LabelRef(symbol), ""), m) == Ok(Some(n))
  {
    LabelRefDecodes(symbol, "", m);
  }

  /** A comment marker whose text has a non-space character at `k` decodes to nothing. */
  lemma MarkerSlot(text: string, k: nat, m: DefineMap)
    requires k < |text| && !IsSpace(text[k])
    ensures DecodeEntry(Comment(text), m) == Ok(None)
  {
    NonBlankAt(text, k);
    MarkersDecodeToNothing(text, m);
  }

  // ---------------------------------------------------------------------------------------
  // The blocks

  const SetupRead: seq<Option<nat>> := [None, None, None, None, Some(127), Some(58), Some(119)]
  const MessageRead: seq<Option<nat>> := [None, Some(0), Some(129), Some(57), Some(57), Some(244)]
  const ShiftRead: seq<Option<nat>> := [Some(62), Some(116), Some(109), None, Some(50), Some(0), Some(38), Some(94)]
  const BlinkRead: seq<Option<nat>> := [Some(59), Some(119), Some(250), Some(44), Some(0), Some(59), Some(119), Some(25), Some(44)]
  const JumpsRead: seq<Option<nat>> := [Some(11), Some(64), Some(3), Some(61), None]

  lemma KeptSetup()
    ensures KeptAll(SetupRead) == [127, 58, 119]
  {
  }

  lemma KeptMessage()
    ensures KeptAll(MessageRead) == [0, 129, 57, 57, 244]
  {
  }

  lemma KeptShift()
    ensures KeptAll(ShiftRead) == [62, 116, 109, 50, 0, 38, 94]
  {
  }

  lemma KeptBlink()
    ensures KeptAll(BlinkRead) == [59, 119, 250, 44, 0, 59, 119, 25, 44]
  {
  }

  lemma KeptJumps()
    ensures KeptAll(JumpsRead) == [11, 64, 3, 61]
  {
  }

  lemma SetupMarkers(m: DefineMap)
    ensures DecodeEntry(Setup[0], m) == Ok(None) && DecodeEntry(Setup[1], m) == Ok(None)
    ensures DecodeEntry(Setup[2], m) == Ok(None) && DecodeEntry(Setup[3], m) == Ok(None)
  {
    assert Setup[0] == Setup[1] == Setup[2] == Blank;
    assert Setup[3] == Comment("Configure the first 7 uo_out pins as outputs");
    ConfigureNote();
    MarkersDecodeToNothing("Configure the first 7 uo_out pins as outputs", m);
  }

  lemma ConfigureNote()
    ensures Trim("Configure the first 7 uo_out pins as outputs") != ""
  {
    NonBlankAt("Configure the first 7 uo_out pins as outputs", 0);
  }

  lemma SetupBytes(m: DefineMap)
    requires Shaped(m)
    ensures DecodeEntry(Setup[4], m) == Ok(Some(127))
    ensures DecodeEntry(Setup[5], m) == Ok(Some(58))
    ensures DecodeEntry(Setup[6], m) == Ok(Some(119))
  {
    assert Setup[4] == Byte(Literal("127"), "") && Setup[5] == Byte(Named("0x3A", "DDRA"), "") && Setup[6] == Byte(OpChar('w'), "");
    Decimal3("127");
    NumeralSlot("127", "", m, 127);
    Hex2("0x3A");
    ConstantSlot("0x3A", "DDRA", m, 58);
    OpSlot('w', m);
  }

  lemma ReadSetup(m: DefineMap)
    requires Shaped(m)
    ensures DecodeAll(Setup, m) == Ok([127, 58, 119])
  {
    SetupMarkers(m);
    SetupBytes(m);
    ReadBlock(Setup, m, SetupRead);
    KeptSetup();
  }

  lemma MessageStart(m: DefineMap)
    ensures DecodeEntry(Message[0], m) == Ok(None)
  {
    assert Message[0] == Comment(":Start");
    MarkerSlot(":Start", 0, m);
  }

  lemma MessageNull(m: DefineMap)
    requires Shaped(m)
    ensures DecodeEntry(Message[1], m) == Ok(Some(0))
  {
    assert Message[1] == Byte(Literal("0"), " null terminator");
    NonBlankAt(" null terminator", 1);
    Decimal1("0");
    NumeralSlot("0", " null terminator", m, 0);
  }

  lemma MessageBang(m: DefineMap)
    requires Shaped(m)
    ensures DecodeEntry(Message[2], m) == Ok(Some(129))
  {
    assert Message[2] == Byte(Literal("129"), " !");
    NonBlankAt(" !", 1);
    Decimal3("129");
    NumeralSlot("129", " !", m, 129);
  }

  lemma MessageLs(m: DefineMap)
    requires Shaped(m)
    ensures DecodeEntry(Message[3], m) == Ok(Some(57)) && DecodeEntry(Message[4], m) == Ok(Some(57))
  {
    assert Message[3] == Message[4] == Byte(Literal("57"), " L");
    NonBlankAt(" L", 1);
    Decimal2("57");
    NumeralSlot("57", " L", m, 57);
  }

  lemma MessageE(m: DefineMap)
    requires Shaped(m)
    ensures DecodeEntry(Message[5], m) == Ok(Some(244))
  {
    assert Message[5] == Byte(Literal("244"), " E (actually 122, hence we SHR next)");
    NonBlankAt(" E (actually 122, hence we SHR next)", 1);
    Decimal3("244");
    NumeralSlot("244", " E (actually 122, hence we SHR next)", m, 244);
  }

  lemma ReadMessage(m: DefineMap)
    requires Shaped(m)
    ensures DecodeAll(Message, m) == Ok([0, 129, 57, 57, 244])
  {
    MessageStart(m);
    MessageNull(m);
    MessageBang(m);
    MessageLs(m);
    MessageE(m);
    ReadBlock(Message, m, MessageRead);
    KeptMessage();
  }

  lemma ShiftP(m: DefineMap)
    requires Shaped(m)
    ensures DecodeEntry(Shift[1], m) == Ok(Some(116))
  {
    assert Shift[1] == Byte(Literal("116"), " P");
    NonBlankAt(" P", 1);
    Decimal3("116");
    NumeralSlot("116", " P", m, 116);
  }

  lemma ShiftS(m: DefineMap)
    requires Shaped(m)
    ensures DecodeEntry(Shift[2], m) == Ok(Some(109))
  {
    assert Shift[2] == Byte(Literal("109"), " S");
    NonBlankAt(" S", 1);
    Decimal3("109");
    NumeralSlot("109", " S", m, 109);
  }

  lemma ShiftWait(m: DefineMap)
    ensures DecodeEntry(Shift[3], m) == Ok(None)
  {
    assert Shift[3] == Comment(":Wait");
    MarkerSlot(":Wait", 0, m);
  }

  lemma ShiftOps(m: DefineMap)
    requires Shaped(m)
    ensures DecodeEntry(Shift[0], m) == Ok(Some(62))
    ensures DecodeEntry(Shift[4], m) == Ok(Some(50))
    ensures DecodeEntry(Shift[5], m) == Ok(Some(0))
    ensures DecodeEntry(Shift[6], m) == Ok(Some(38))
    ensures DecodeEntry(Shift[7], m) == Ok(Some(94))
  {
    assert Shift[0] == Byte(OpChar('>'), "") && Shift[4] == Byte(OpChar('2'), "") && Shift[5] == Byte(Literal("0"), "");
    assert Shift[6] == Byte(OpChar('&'), "") && Shift[7] == Byte(OpChar('^'), "");
    OpSlot('>', m);
    OpSlot('2', m);
    Decimal1("0");
    NumeralSlot("0", "", m, 0);
    OpSlot('&', m);
    OpSlot('^', m);
  }

  lemma ReadShift(m: DefineMap)
    requires Shaped(m)
    ensures DecodeAll(Shift, m) == Ok([62, 116, 109, 50, 0, 38, 94])
  {
    ShiftP(m);
    ShiftS(m);
    ShiftWait(m);
    ShiftOps(m);
    ReadBlock(Shift, m, ShiftRead);
    KeptShift();
  }

  lemma BlinkOps(m: DefineMap)
    requires Shaped(m)
    ensures DecodeEntry(Blink[0], m) == Ok(Some(59)) && DecodeEntry(Blink[5], m) == Ok(Some(59))
    ensures DecodeEntry(Blink[1], m) == Ok(Some(119)) && DecodeEntry(Blink[6], m) == Ok(Some(119))
    ensures DecodeEntry(Blink[3], m) == Ok(Some(44)) && DecodeEntry(Blink[8], m) == Ok(Some(44))
  {
    assert Blink[0] == Blink[5] == Byte(Named("0x3B", "PORTA"), "");
    assert Blink[1] == Blink[6] == Byte(OpChar('w'), "") && Blink[3] == Blink[8] == Byte(OpChar(','), "");
    Hex2("0x3B");
    ConstantSlot("0x3B", "PORTA", m, 59);
    OpSlot('w', m);
    OpSlot(',', m);
  }

  lemma BlinkNumerals(m: DefineMap)
    requires Shaped(m)
    ensures DecodeEntry(Blink[2], m) == Ok(Some(250))
    ensures DecodeEntry(Blink[4], m) == Ok(Some(0))
    ensures DecodeEntry(Blink[7], m) == Ok(Some(25))
  {
    assert Blink[2] == Byte(Literal("250"), "") && Blink[4] == Byte(Literal("0"), "") && Blink[7] == Byte(Literal("25"), "");
    Decimal3("250");
    NumeralSlot("250", "", m, 250);
    Decimal1("0");
    NumeralSlot("0", "", m, 0);
    Decimal2("25");
    NumeralSlot("25", "", m, 25);
  }

  lemma ReadBlink(m: DefineMap)
    requires Shaped(m)
    ensures DecodeAll(Blink, m) == Ok([59, 119, 250, 44, 0, 59, 119, 25, 44])
  {
    BlinkOps(m);
    BlinkNumerals(m);
    ReadBlock(Blink, m, BlinkRead);
    KeptBlink();
  }

  lemma JumpsSlots(m: DefineMap)
    requires Shaped(m)
    ensures DecodeEntry(Jumps[0], m) == Ok(Some(11))
    ensures DecodeEntry(Jumps[1], m) == Ok(Some(64))
    ensures DecodeEntry(Jumps[2], m) == Ok(Some(3))
    ensures DecodeEntry(Jumps[3], m) == Ok(Some(61))
    ensures DecodeEntry(Jumps[4], m) == Ok(None)
  {
    assert Jumps[0] == Byte(LabelRef("Wait"), "") && Jumps[1] == Byte(OpChar('@'), "") && Jumps[2] == Byte(LabelRef("Start"), "");
    assert Jumps[3] == Byte(OpChar('='), "") && Jumps[4] == Blank;
    assert "LABEL_" + "Wait" == "LABEL_Wait" && "LABEL_" + "Start" == "LABEL_Start";
    LabelSlot("Wait", m, 11);
    LabelSlot("Start", m, 3);
    OpSlot('@', m);
    OpSlot('=', m);
  }

  lemma ReadJumps(m: DefineMap)
    requires Shaped(m)
    ensures DecodeAll(Jumps, m) == Ok([11, 64, 3, 61])
  {
    JumpsSlots(m);
    ReadBlock(Jumps, m, JumpsRead);
    KeptJumps();
  }

  // ---------------------------------------------------------------------------------------
  // The whole program

  /** The bytes of the five blocks, in order, are the bytes the test expects. */
  lemma BlockBytes()
    ensures [127, 58, 119] + [0, 129, 57, 57, 244] + [62, 116, 109, 50, 0, 38, 94]
      + [59, 119, 250, 44, 0, 59, 119, 25, 44] + [11, 64, 3, 61] == IntegrationBytes
  {
  }

  /** Five pieces of code that read without error read, in turn, as their bytes in turn. */
  lemma ReadFive(c1: seq<Entry>, c2: seq<Entry>, c3: seq<Entry>, c4: seq<Entry>, c5: seq<Entry>, m: DefineMap,
                 b1: seq<nat>, b2: seq<nat>, b3: seq<nat>, b4: seq<nat>, b5: seq<nat>)
    requires DecodeAll(c1, m) == Ok(b1) && DecodeAll(c2, m) == Ok(b2) && DecodeAll(c3, m) == Ok(b3)
    requires DecodeAll(c4, m) == Ok(b4) && DecodeAll(c5, m) == Ok(b5)
    ensures DecodeAll(c1 + c2 + c3 + c4 + c5, m) == Ok(b1 + b2 + b3 + b4 + b5)
  {
    DecodeAllAppend(c1, c2, m);
    DecodeAllAppend(c1 + c2, c3, m);
    DecodeAllAppend(c1 + c2 + c3, c4, m);
    DecodeAllAppend(c1 + c2 + c3 + c4, c5, m);
  }

  /** Under defines shaped like the test's, its code reads as the 28 bytes the test expects. */
  lemma ReadCode(m: DefineMap)
    requires Shaped(m)
    ensures DecodeAll(IntegrationCode, m) == Ok(IntegrationBytes)
  {
    ReadSetup(m);
    ReadMessage(m);
    ReadShift(m);
    ReadBlink(m);
    ReadJumps(m);
    BlockBytes();
    ReadFive(Setup, Message, Shift, Blink, Jumps, m,
             [127, 58, 119], [0, 129, 57, 57, 244], [62, 116, 109, 50, 0, 38, 94],
             [59, 119, 250, 44, 0, 59, 119, 25, 44], [11, 64, 3, 61]);
  }

  /** Reading the integration test's program gives the 28 bytes the test expects. */
  lemma IntegrationTestBytes()
    ensures ExtractBytes(IntegrationProgram) == Ok(IntegrationBytes)
  {
    IntegrationMap();
    ReadCode(DefinesToMap(Defines(IntegrationTable)));
  }
}
