/**
  Reading the bytes back out of an assembled program (`SPLBytes`): the defines become a table
  from names to numbers, then every code line is stripped of its comments and its trailing `,`
  and the text left over is decoded as a defined name, a numeral, a binary literal or a quoted
  character. Comment markers and blank markers decode to nothing.
 */
module ByteExtract {
  import opened Results
  import opened Strings
  import opened Numerals
  import opened Symbols
  import opened CodeLines
  import opened Encoder

  /** `defineMap`: names to the numbers `parseInt` makes of their texts. */
  type DefineMap = map<string, Number>

  /** One pass of the defines loop: a line `#define k v` binds `k` to `parseInt(v)`. */
  function AddDefine(m: DefineMap, item: string): DefineMap {
    var parts := Split(Trim(item), ' ');
    if parts[0] == "#define" then
      // A missing `parts[1]` is the key "undefined"; a missing `parts[2]` parses to NaN.
      m[(if |parts| > 1 then parts[1] else "undefined") := if |parts| > 2 then ParseNumeral(parts[2]) else NaN]
    else m
  }

  /** The defines loop from the table `m` on, over the lines `ds` in order: a later line wins. */
  function DefineMapFrom(m: DefineMap, ds: seq<string>): DefineMap
    decreases |ds|
  {
    if ds == [] then m else DefineMapFrom(AddDefine(m, ds[0]), ds[1..])
  }

  function DefinesToMap(ds: seq<string>): DefineMap {
    DefineMapFrom(map[], ds)
  }

  /** `defineMap[k]` is truthy: a number other than 0 and NaN. */
  predicate Truthy(m: DefineMap, k: string) {
    k in m && m[k].Int? && m[k].n != 0
  }

  /** The text of a byte slot once its `/* … */` part is removed and it is trimmed. */
  function ValueBare(v: Value): string {
    match v
    case LabelRef(symbol) => "LABEL_" + symbol
    case Named(text, _) => text
    case Literal(text) => text
    case OpChar(op) => "'" + [op] + "'"
    case Pad => "0"
  }

  /** The text of a byte slot once its `/* … */` part is removed, before trimming. */
  function ValueCore(v: Value): string {
    match v
    case Named(text, _) => text + " "
    case Pad => "0 "
    case _ => ValueText(v)
  }

  /**
    `bare`: the rendered line trimmed, its `// …` tail and `/* … */` parts removed, its trailing
    `,` removed, trimmed again. A `//` without text after it is not removed, so a comment made of
    white space only leaves both the `,` and the `//` in place.
   */
  function BareText(e: Entry): string {
    match e
    case Byte(v, comment) =>
      if comment != "" && Trim(comment) == "" then ValueCore(v) + ",       //" else ValueBare(v)
    case Blank => ""
    case Comment(text) => if Trim(text) == "" then "//" else ""
  }

  /** The characters `.` matches in a JavaScript regular expression without the `u` flag: one UTF-16 code unit, not a line terminator. */
  predicate IsDotChar(c: char) {
    (c as int) < 0x1_0000 && c != '\n' && c != '\r' && c != '\U{2028}' && c != '\U{2029}'
  }

  /** The character `'\\?(.)'` captures when it matches at index `i`. */
  function CharMatchAt(s: string, i: nat): Option<char>
    requires i < |s|
  {
    if s[i] != '\'' then None
    else if i + 3 < |s| && s[i + 1] == '\\' && IsDotChar(s[i + 2]) && s[i + 3] == '\'' then Some(s[i + 2])
    else if i + 2 < |s| && IsDotChar(s[i + 1]) && s[i + 2] == '\'' then Some(s[i + 1])
    else None
  }

  /** The capture of the leftmost match of `'\\?(.)'` at or after index `i`. */
  function CharMatch(s: string, i: nat): (r: Option<char>)
    ensures r.Some? ==> IsDotChar(r.value)
    ensures r.Some? ==> exists j | i <= j < |s| ::
      CharMatchAt(s, j) == r && forall k | i <= k < j :: CharMatchAt(s, k).None?
    ensures r.None? ==> forall k | i <= k < |s| :: CharMatchAt(s, k).None?
    decreases |s| - i
  {
    if i >= |s| then None
    else if CharMatchAt(s, i).Some? then CharMatchAt(s, i)
    else CharMatch(s, i + 1)
  }

  /** The message for a line that decodes to no byte. */
  function InvalidInput(line: string): string {
    "Invalid C-SPL input: " + line
  }

  /** The callback of the `map`: `None` is its `null`; `line` is the rendered entry. */
  function DecodeBare(bare: string, m: DefineMap, line: string): Result<Option<nat>, string> {
    if bare == "" then Ok(None)
    else if Truthy(m, bare) then Ok(Some(m[bare].n))
    else if IsNumeral(bare) then Ok(Some(ParseNumeral(bare).n))
    else if IsBinaryLiteral(bare) then Ok(Some(ParseBinary(bare)))
    else if CharMatch(bare, 0).Some? then Ok(Some(CharMatch(bare, 0).value as nat))
    else Err(InvalidInput(line))
  }

  function DecodeEntry(e: Entry, m: DefineMap): Result<Option<nat>, string> {
    DecodeBare(BareText(e), m, Render(e))
  }

  /** One result of the `map`: a byte, `null`, or the error it throws. */
  type Outcome = Result<Option<nat>, string>

  /** The `map` over the code lines. */
  function Decoded(code: seq<Entry>, m: DefineMap): (rs: seq<Outcome>)
    ensures |rs| == |code|
  {
    seq(|code|, i requires 0 <= i < |code| => DecodeEntry(code[i], m))
  }

  /** The `map` completing (the first error it meets is the one thrown), then the `filter`. */
  function Collect(rs: seq<Outcome>): Result<seq<nat>, string>
    decreases |rs|
  {
    if rs == [] then Ok([])
    else
      var prev := Collect(rs[..|rs| - 1]);
      var last := rs[|rs| - 1];
      if prev.Err? then prev
      else if last.Err? then Err(last.error)
      else Ok(prev.value + Kept(last.value))
  }

  /** What the `filter` keeps of one result of the `map`. */
  function Kept(b: Option<nat>): seq<nat> {
    if b.Some? then [b.value] else []
  }

  function DecodeAll(code: seq<Entry>, m: DefineMap): Result<seq<nat>, string> {
    Collect(Decoded(code, m))
  }

  /** What `SPLBytes` computes from a program record. */
  function ExtractBytes(p: Program): Result<seq<nat>, string> {
    DecodeAll(p.code, DefinesToMap(p.defines))
  }

  /** `SPLBytes`: the loop that fills `defineMap`, then the `map`/`filter` over the code. */
  method SPLBytes(p: Program) returns (r: Result<seq<nat>, string>)
    ensures r == ExtractBytes(p)
  {
    var defineMap: DefineMap := map[];
    for i := 0 to |p.defines|
      invariant DefineMapFrom(defineMap, p.defines[i..]) == DefinesToMap(p.defines)
    {
      assert p.defines[i..][1..] == p.defines[i + 1..];
      defineMap := AddDefine(defineMap, p.defines[i]);
    }
    r := DecodeAll(p.code, defineMap);
  }

  // ---------------------------------------------------------------------------------------
  // The `map` and the `filter`

  /** How many results of the `map` are bytes. */
  function KeptCount(rs: seq<Outcome>): nat
    decreases |rs|
  {
    if rs == [] then 0
    else KeptCount(rs[..|rs| - 1]) + if rs[|rs| - 1].Ok? && rs[|rs| - 1].value.Some? then 1 else 0
  }

  /** The `filter` keeps exactly the bytes. */
  lemma {:induction false} CollectCount(rs: seq<Outcome>, bs: seq<nat>)
    requires Collect(rs) == Ok(bs)
    ensures |bs| == KeptCount(rs)
    decreases |rs|
  {
    if rs != [] {
      CollectCount(rs[..|rs| - 1], Collect(rs[..|rs| - 1]).value);
    }
  }

  /** The `map` completes exactly when no line throws. */
  lemma {:induction false} CollectSucceeds(rs: seq<Outcome>)
    ensures Collect(rs).Ok? <==> forall i | 0 <= i < |rs| :: rs[i].Ok?
    decreases |rs|
  {
    if rs != [] {
      var prefix := rs[..|rs| - 1];
      CollectSucceeds(prefix);
      assert forall i | 0 <= i < |prefix| :: prefix[i] == rs[i];
    }
  }

  /** Once a prefix throws, the whole `map` throws the same error. */
  lemma {:induction false} CollectErrorSticks(rs: seq<Outcome>, n: nat)
    requires n <= |rs| && Collect(rs[..n]).Err?
    ensures Collect(rs) == Collect(rs[..n])
    decreases |rs|
  {
    if n < |rs| {
      var k := |rs| - 1;
      assert rs[..k][..n] == rs[..n];
      CollectErrorSticks(rs[..k], n);
    } else {
      assert rs[..n] == rs;
    }
  }

  /** The first line that throws decides the error. */
  lemma CollectFirstError(rs: seq<Outcome>, i: nat, message: string)
    requires i < |rs|
    requires forall j | 0 <= j < i :: rs[j].Ok?
    requires rs[i] == Err(message)
    ensures Collect(rs) == Err(message)
  {
    var prefix := rs[..i];
    CollectSucceeds(prefix);
    assert forall j | 0 <= j < i :: prefix[j] == rs[j];
    assert rs[..i + 1][..i] == prefix;
    CollectErrorSticks(rs, i + 1);
  }

  /** The `map` and `filter` over two lists in turn: the first list's error if it has one, else the second's, else both lists' bytes. */
  lemma {:induction false} CollectAppend(xs: seq<Outcome>, ys: seq<Outcome>)
    ensures Collect(xs + ys) ==
      if Collect(xs).Err? then Collect(xs)
      else if Collect(ys).Err? then Collect(ys)
      else Ok(Collect(xs).value + Collect(ys).value)
    decreases |ys|
  {
    if ys == [] {
      assert xs + ys == xs;
      assert Collect(ys) == Ok([]);
      if Collect(xs).Ok? {
        assert Collect(xs).value + [] == Collect(xs).value;
      }
    } else {
      var n := |ys| - 1;
      var zs := xs + ys;
      assert zs[..|zs| - 1] == xs + ys[..n];
      assert zs[|zs| - 1] == ys[n];
      CollectAppend(xs, ys[..n]);
      assert Collect(zs) == (if Collect(xs + ys[..n]).Err? then Collect(xs + ys[..n])
        else if ys[n].Err? then Err(ys[n].error)
        else Ok(Collect(xs + ys[..n]).value + Kept(ys[n].value)));
      if Collect(xs).Err? || Collect(ys[..n]).Err? || ys[n].Err? {
      } else {
        var a, b := Collect(xs).value, Collect(ys[..n]).value;
        assert a + b + Kept(ys[n].value) == a + (b + Kept(ys[n].value));
      }
    }
  }

  /** A byte of the `map` lands at its position among the bytes. */
  lemma {:induction false} CollectAt(rs: seq<Outcome>, bs: seq<nat>, i: nat)
    requires Collect(rs) == Ok(bs)
    requires i < |rs| && rs[i].Ok? && rs[i].value.Some?
    ensures KeptCount(rs[..i]) < |bs| && bs[KeptCount(rs[..i])] == rs[i].value.value
    decreases |rs|
  {
    var n := |rs| - 1;
    var prev := Collect(rs[..n]).value;
    CollectCount(rs[..n], prev);
    if i < n {
      CollectAt(rs[..n], prev, i);
      assert rs[..n][..i] == rs[..i];
    } else {
      assert rs[..i] == rs[..n];
    }
  }

  // ---------------------------------------------------------------------------------------
  // Which lines give a byte

  /** Exactly the byte slots leave some text once their comments are stripped. */
  predicate FilledSlots(code: seq<Entry>) {
    forall i | 0 <= i < |code| :: BareText(code[i]) != "" <==> code[i].Byte?
  }

  /** The `map` of a prefix is the prefix of the `map`. */
  lemma DecodedPrefix(code: seq<Entry>, m: DefineMap, n: nat)
    requires n <= |code|
    ensures Decoded(code[..n], m) == Decoded(code, m)[..n]
  {
  }

  /** When no line throws, the bytes of the `map` are as many as the byte slots. */
  lemma KeptSlots(code: seq<Entry>, m: DefineMap)
    requires FilledSlots(code)
    requires forall i | 0 <= i < |code| :: DecodeEntry(code[i], m).Ok?
    ensures KeptCount(Decoded(code, m)) == ByteCount(code)
  {
    var rs := Decoded(code, m);
    forall i | 0 <= i < |code|
      ensures rs[i].Ok? && (rs[i].value.Some? <==> code[i].Byte?)
    {
      ByteOutcome(code[i], m);
    }
    KeptMatches(rs, code);
  }

  /** Outcomes that succeed, with a byte exactly at the byte slots, keep as many bytes as there are slots. */
  lemma {:induction false} KeptMatches(rs: seq<Outcome>, code: seq<Entry>)
    requires |rs| == |code|
    requires forall i | 0 <= i < |code| :: rs[i].Ok? && (rs[i].value.Some? <==> code[i].Byte?)
    ensures KeptCount(rs) == ByteCount(code)
    decreases |code|
  {
    if code != [] {
      var n := |code| - 1;
      assert forall i | 0 <= i < n :: rs[..n][i] == rs[i] && code[..n][i] == code[i];
      KeptMatches(rs[..n], code[..n]);
    }
  }

  /** A line that decodes gives a byte exactly when it leaves some text. */
  lemma ByteOutcome(e: Entry, m: DefineMap)
    requires DecodeEntry(e, m).Ok?
    ensures DecodeEntry(e, m).value.Some? <==> BareText(e) != ""
  {
    BareOutcome(BareText(e), m, Render(e));
  }

  lemma BareOutcome(bare: string, m: DefineMap, line: string)
    requires DecodeBare(bare, m, line).Ok?
    ensures DecodeBare(bare, m, line).value.Some? <==> bare != ""
  {
  }

  /** Markers decode to nothing and filled byte slots to one byte, so the bytes are as many as the slots. */
  lemma ExtractedCount(code: seq<Entry>, m: DefineMap, bs: seq<nat>)
    requires FilledSlots(code)
    requires DecodeAll(code, m) == Ok(bs)
    ensures |bs| == ByteCount(code)
  {
    var rs := Decoded(code, m);
    CollectCount(rs, bs);
    CollectSucceeds(rs);
    assert forall i | 0 <= i < |code| :: rs[i] == DecodeEntry(code[i], m);
    KeptSlots(code, m);
  }

  /** Decoding succeeds exactly when every line decodes. */
  lemma DecodeAllSucceeds(code: seq<Entry>, m: DefineMap)
    ensures DecodeAll(code, m).Ok? <==> forall i | 0 <= i < |code| :: DecodeEntry(code[i], m).Ok?
  {
    var rs := Decoded(code, m);
    CollectSucceeds(rs);
    assert forall i | 0 <= i < |code| :: rs[i] == DecodeEntry(code[i], m);
  }

  /** Reading two pieces of code in turn: the first piece's error if it has one, else the second's, else both pieces' bytes. */
  lemma DecodeAllAppend(a: seq<Entry>, b: seq<Entry>, m: DefineMap)
    ensures DecodeAll(a + b, m) ==
      if DecodeAll(a, m).Err? then DecodeAll(a, m)
      else if DecodeAll(b, m).Err? then DecodeAll(b, m)
      else Ok(DecodeAll(a, m).value + DecodeAll(b, m).value)
  {
    var whole, parts := Decoded(a + b, m), Decoded(a, m) + Decoded(b, m);
    forall i | 0 <= i < |whole|
      ensures whole[i] == parts[i]
    {
      if i < |a| {
        assert (a + b)[i] == a[i];
      } else {
        assert (a + b)[i] == b[i - |a|];
      }
    }
    assert whole == parts;
    CollectAppend(Decoded(a, m), Decoded(b, m));
  }

  /** The first line that fails to decode decides the error. */
  lemma FirstErrorWins(code: seq<Entry>, m: DefineMap, i: nat, message: string)
    requires i < |code|
    requires forall j | 0 <= j < i :: DecodeEntry(code[j], m).Ok?
    requires DecodeEntry(code[i], m) == Err(message)
    ensures DecodeAll(code, m) == Err(message)
  {
    var rs := Decoded(code, m);
    assert forall j | 0 <= j < i :: rs[j] == DecodeEntry(code[j], m);
    CollectFirstError(rs, i, message);
  }

  /** Before index `i`, the bytes of the `map` are as many as the byte slots. */
  lemma KeptPrefix(code: seq<Entry>, m: DefineMap, i: nat)
    requires FilledSlots(code) && i <= |code|
    requires forall j | 0 <= j < |code| :: DecodeEntry(code[j], m).Ok?
    ensures KeptCount(Decoded(code, m)[..i]) == ByteCount(code[..i])
  {
    var prefix := code[..i];
    assert forall j | 0 <= j < i :: prefix[j] == code[j];
    KeptSlots(prefix, m);
    DecodedPrefix(code, m, i);
  }

  /** The byte slot at index `i` gives the byte at the position of its slot among the slots. */
  lemma ExtractedAt(code: seq<Entry>, m: DefineMap, bs: seq<nat>, i: nat)
    requires FilledSlots(code)
    requires DecodeAll(code, m) == Ok(bs)
    requires i < |code| && code[i].Byte?
    ensures ByteCount(code[..i]) < |bs|
    ensures DecodeEntry(code[i], m) == Ok(Some(bs[ByteCount(code[..i])]))
  {
    var rs := Decoded(code, m);
    DecodeAllSucceeds(code, m);
    KeptPrefix(code, m, i);
    ByteOutcome(code[i], m);
    assert rs[i] == DecodeEntry(code[i], m);
    CollectAt(rs, bs, i);
  }

  // ---------------------------------------------------------------------------------------
  // What a byte slot decodes to

  /** A comment the assembler can attach: none, or one with text that is not white space. */
  predicate PlainComment(comment: string) {
    comment == "" || Trim(comment) != ""
  }

  /** Blank markers and comment markers with text decode to nothing. */
  lemma MarkersDecodeToNothing(text: string, m: DefineMap)
    requires Trim(text) != ""
    ensures DecodeEntry(Blank, m) == Ok(None)
    ensures DecodeEntry(Comment(text), m) == Ok(None)
  {
  }

  /** A numeral slot decodes to its value, unless its text is a truthy define. */
  lemma LiteralDecodes(text: string, comment: string, m: DefineMap)
    requires IsNumeral(text) && PlainComment(comment) && !Truthy(m, text)
    ensures DecodeEntry(Byte(Literal(text), comment), m) == Ok(Some(ParseNumeral(text).n))
  {
  }

  /** The byte `STOP` writes, `0xff`, decodes to 255. */
  lemma StopDecodes(comment: string, m: DefineMap)
    requires PlainComment(comment) && !Truthy(m, "0xff")
    ensures DecodeEntry(Byte(Literal("0xff"), comment), m) == Ok(Some(255))
  {
    var s := "0xff";
    assert IsHexLiteral(s);
    assert s[2..] == "ff" && "ff"[..1] == "f" && "f"[..0] == [];
    assert ValueIn("ff", 16) == 255;
  }

  /** A padding slot decodes to 0. */
  lemma PadDecodes(comment: string, m: DefineMap)
    requires PlainComment(comment) && !Truthy(m, "0")
    ensures DecodeEntry(Byte(Pad, comment), m) == Ok(Some(0))
  {
    PlainBare(Pad, comment);
    assert IsDecimalLiteral("0") && "0"[..0] == [];
    assert ParseNumeral("0") == Int(0);
  }

  /** A slot with a plain comment leaves the bare text of its value. */
  lemma PlainBare(v: Value, comment: string)
    requires PlainComment(comment)
    ensures BareText(Byte(v, comment)) == ValueBare(v)
  {
  }

  /** An opcode slot `'c'` decodes to the code of `c`. */
  lemma OpCharDecodes(op: char, comment: string, m: DefineMap)
    requires IsDotChar(op) && PlainComment(comment) && !Truthy(m, "'" + [op] + "'")
    ensures DecodeEntry(Byte(OpChar(op), comment), m) == Ok(Some(op as nat))
  {
    var s := "'" + [op] + "'";
    assert |s| == 3 && s[0] == '\'' && s[1] == op && s[2] == '\'';
    assert BareText(Byte(OpChar(op), comment)) == s;
    assert !IsNumeral(s) && !IsBinaryLiteral(s) by {
      assert !IsDigit(s[0]) && s[0] != '0';
    }
    assert CharMatchAt(s, 0) == Some(op);
    assert CharMatch(s, 0) == Some(op);
  }

  /** No match at or after `i` when no quote lies there. */
  lemma {:induction false} NoCharMatch(s: string, i: nat)
    requires forall k | i <= k < |s| :: s[k] != '\''
    ensures CharMatch(s, i).None?
    decreases |s| - i
  {
    if i < |s| {
      NoCharMatch(s, i + 1);
    }
  }

  /** A label reference decodes to the label's number when it is a truthy define, and fails otherwise. */
  lemma LabelRefDecodes(symbol: string, comment: string, m: DefineMap)
    requires PlainComment(comment) && '\'' !in symbol
    ensures Truthy(m, "LABEL_" + symbol) ==>
      DecodeEntry(Byte(LabelRef(symbol), comment), m) == Ok(Some(m["LABEL_" + symbol].n))
    ensures !Truthy(m, "LABEL_" + symbol) ==>
      DecodeEntry(Byte(LabelRef(symbol), comment), m) == Err(InvalidInput(Render(Byte(LabelRef(symbol), comment))))
  {
    var s := "LABEL_" + symbol;
    assert !IsDigit(s[0]) && s[0] != '0';
    forall k | 0 <= k < |s| ensures s[k] != '\'' {
      if k >= 6 {
        assert s[k] == symbol[k - 6];
      }
    }
    NoCharMatch(s, 0);
  }

  /** A constant slot decodes as its text: a truthy define first, else a numeral. */
  lemma NamedDecodes(text: string, name: string, comment: string, m: DefineMap)
    requires PlainComment(comment) && text != ""
    ensures Truthy(m, text) ==> DecodeEntry(Byte(Named(text, name), comment), m) == Ok(Some(m[text].n))
    ensures !Truthy(m, text) && IsNumeral(text) ==>
      DecodeEntry(Byte(Named(text, name), comment), m) == Ok(Some(ParseNumeral(text).n))
  {
  }

  // ---------------------------------------------------------------------------------------
  // The defines read back

  /** Names without a space, bound to texts that are single words: what `#define k v` can carry. */
  predicate SpaceFree(t: Table) {
    forall i | 0 <= i < |t| :: ' ' !in t[i].0 && IsWord(t[i].1)
  }

  lemma DefineLineTrimmed(k: string, v: string)
    requires v != [] && !IsSpace(v[|v| - 1])
    ensures Trim(DefineLine(k, v)) == DefineLine(k, v)
  {
    var line := DefineLine(k, v);
    assert line[|line| - 1] == v[|v| - 1];
    TrimPadded("", line, "");
    assert "" + line + "" == line;
  }

  lemma DefineLineJoined(k: string, v: string)
    ensures Join(["#define", k, v], " ") == DefineLine(k, v)
  {
    var parts := ["#define", k, v];
    assert parts[1..] == [k, v] && [k, v][1..] == [v];
    assert Join([k, v], " ") == k + " " + v;
  }

  /** The line `#define k v` splits back into its three words. */
  lemma DefineLineParts(k: string, v: string)
    requires ' ' !in k && IsWord(v)
    ensures Split(Trim(DefineLine(k, v)), ' ') == ["#define", k, v]
  {
    DefineLineTrimmed(k, v);
    DefineLineJoined(k, v);
    var parts := ["#define", k, v];
    assert ' ' !in parts[0];
    SplitOfJoin(parts, ' ');
  }

  /** Each pass of the loop over `#define k v` binds `k` to `parseInt(v)`. */
  lemma AddDefineLine(m: DefineMap, k: string, v: string)
    requires ' ' !in k && IsWord(v)
    ensures AddDefine(m, DefineLine(k, v)) == m[k := ParseNumeral(v)]
  {
    DefineLineParts(k, v);
  }

  /**
    Reading the defines of a table with distinct names binds every name of the table to the number
    its text parses to, and leaves every other name as it was.
   */
  lemma {:induction false} DefinesReadBack(m: DefineMap, t: Table)
    requires UniqueKeys(t) && SpaceFree(t)
    ensures forall k | k in Keys(t) ::
      k in DefineMapFrom(m, Defines(t)) && DefineMapFrom(m, Defines(t))[k] == ParseNumeral(Lookup(t, k).value)
    ensures forall k | k !in Keys(t) :: (k in DefineMapFrom(m, Defines(t)) <==> k in m)
    ensures forall k | k !in Keys(t) && k in m :: DefineMapFrom(m, Defines(t))[k] == m[k]
    decreases |t|
  {
    if t != [] {
      var (k0, v0) := t[0];
      var rest := t[1..];
      var m1 := m[k0 := ParseNumeral(v0)];
      DefinesCons(m, t);
      assert SpaceFree(rest) by {
        assert forall i | 0 <= i < |rest| :: rest[i] == t[i + 1];
      }
      DefinesReadBack(m1, rest);
      var r := DefineMapFrom(m1, Defines(rest));
      assert DefineMapFrom(m, Defines(t)) == r;
      assert Keys(t) == [k0] + Keys(rest);
      assert k0 !in Keys(rest);
      forall k | k in Keys(t)
        ensures k in r && r[k] == ParseNumeral(Lookup(t, k).value)
      {
        if k != k0 {
          assert k in Keys(rest) && Lookup(t, k) == Lookup(rest, k);
        }
      }
    }
  }

  /** One pass of the define loop over the defines of a non-empty table. */
  lemma DefinesCons(m: DefineMap, t: Table)
    requires t != [] && ' ' !in t[0].0 && IsWord(t[0].1)
    ensures DefineMapFrom(m, Defines(t)) == DefineMapFrom(m[t[0].0 := ParseNumeral(t[0].1)], Defines(t[1..]))
  {
    var ds := Defines(t);
    assert ds[0] == DefineLine(t[0].0, t[0].1);
    assert ds[1..] == Defines(t[1..]);
    AddDefineLine(m, t[0].0, t[0].1);
  }

  /** The define table holds exactly the names of the symbol table, each with the number its text parses to. */
  lemma DefinesRoundTrip(t: Table)
    requires UniqueKeys(t) && SpaceFree(t)
    ensures forall k :: k in DefinesToMap(Defines(t)) <==> k in Keys(t)
    ensures forall k | k in Keys(t) :: DefinesToMap(Defines(t))[k] == ParseNumeral(Lookup(t, k).value)
  {
    DefinesReadBack(map[], t);
  }

  /** A reference to a label bound to a positive address decodes, through the defines, to that address. */
  lemma LabelRoundTrip(t: Table, symbol: string, address: nat, comment: string)
    requires UniqueKeys(t) && SpaceFree(t)
    requires Lookup(t, "LABEL_" + symbol) == Some(NumberText(Int(address))) && address > 0
    requires PlainComment(comment) && '\'' !in symbol
    ensures DecodeEntry(Byte(LabelRef(symbol), comment), DefinesToMap(Defines(t))) == Ok(Some(address))
  {
    DefinesRoundTrip(t);
    ParseNumeralOfNatToString(address);
    LabelRefDecodes(symbol, comment, DefinesToMap(Defines(t)));
  }
}
