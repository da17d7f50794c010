/**
  `formatSPLCode`: the C array listing of an assembled program. Every code entry is rendered
  and indented unless it is a `//` line, leading blank lines are dropped, a row of zeros fills
  the bytes below the origin, and the defines head the text.
 */
module Listing {
  import opened Strings
  import opened Numerals
  import opened CodeLines
  import opened Encoder

  /** The `code.map` step: a `//` line is kept as it is, every other line gets two spaces. */
  function Indent(line: string): string {
    if StartsWith(line, "//") then line else "  " + line
  }

  /** The rendered, indented code lines. */
  function Lines(code: seq<Entry>): (lines: seq<string>)
    ensures |lines| == |code|
  {
    if code == [] then [] else [Indent(Render(code[0]))] + Lines(code[1..])
  }

  /** A line the `while` loop drops: blank after `trim`. */
  predicate IsBlankLine(line: string) {
    Trim(line) == ""
  }

  /** The lines left once the leading blank ones are shifted off. */
  function DropBlank(lines: seq<string>): seq<string> {
    if lines != [] && IsBlankLine(lines[0]) then DropBlank(lines[1..]) else lines
  }

  /** `'  ' + '0, '.repeat(n).trim()`. */
  function ZeroRow(n: nat): string {
    "  " + Trim(Repeat("0, ", n))
  }

  /** The lines between the braces: the zero row when the origin is positive, then the code. */
  function Body(p: Program): seq<string> {
    var kept := DropBlank(Lines(p.code));
    if p.origin.Int? && p.origin.n > 0 then [ZeroRow(p.origin.n)] + kept else kept
  }

  const Header: string := "uint8_t program[256] = {"

  const Footer: string := "};"

  /** The text `formatSPLCode` returns. */
  function Listing(p: Program): string {
    Join(p.defines, "\n") + "\n\n" + Header + "\n" + Join(Body(p), "\n") + "\n" + Footer + "\n"
  }

  /** Some entry is not a blank marker; without one the loop would read past the end of the lines. */
  predicate HasCode(code: seq<Entry>) {
    exists i | 0 <= i < |code| :: !code[i].Blank?
  }

  /** A rendered entry is blank after indenting and trimming exactly when it is a blank marker. */
  lemma BlankLineIsBlankEntry(e: Entry)
    ensures IsBlankLine(Indent(Render(e))) <==> e.Blank?
  {
    var line := Indent(Render(e));
    match e
    case Blank =>
      assert line == "  ";
      assert AllSpace(line);
    case Comment(text) =>
      assert line[0] == '/';
    case Byte(v, comment) =>
      var r := Render(e);
      assert r[|ValueText(v)|] == ',';
      assert line[|line| - |r| + |ValueText(v)|] == ',';
  }

  /** `formatSPLCode`: the map, the `while` loop that shifts off blank lines, the origin row, the text. */
  method FormatSPLCode(p: Program) returns (text: string)
    requires HasCode(p.code)
    ensures text == Listing(p)
  {
    var lines := Lines(p.code);
    CodeHasText(p.code);
    while IsBlankLine(lines[0])
      invariant HasText(lines)
      invariant DropBlank(lines) == DropBlank(Lines(p.code))
      decreases |lines|
    {
      lines := lines[1..];
    }
    if p.origin.Int? && p.origin.n > 0 {
      lines := [ZeroRow(p.origin.n)] + lines;
    }
    text := Join(p.defines, "\n") + "\n\n" + Header + "\n" + Join(lines, "\n") + "\n" + Footer + "\n";
  }

  /** Some line is not blank, so shifting off blank lines stops before the array is empty. */
  predicate HasText(lines: seq<string>) {
    lines != [] && (!IsBlankLine(lines[0]) || HasText(lines[1..]))
  }

  lemma {:induction false} CodeHasText(code: seq<Entry>)
    requires HasCode(code)
    ensures HasText(Lines(code))
  {
    LinesTail(code);
    BlankLineIsBlankEntry(code[0]);
    if code[0].Blank? {
      HasCodeTail(code);
      CodeHasText(code[1..]);
    }
  }

  /** The index of the first entry that is not a blank marker. */
  function FirstCode(code: seq<Entry>): (k: nat)
    requires HasCode(code)
    ensures k < |code| && !code[k].Blank?
    ensures forall i | 0 <= i < k :: code[i].Blank?
  {
    if !code[0].Blank? then 0
    else
      assert HasCode(code[1..]) by {
        var i :| 0 <= i < |code| && !code[i].Blank?;
        assert code[1..][i - 1] == code[i];
      }
      1 + FirstCode(code[1..])
  }

  lemma LinesTail(code: seq<Entry>)
    requires code != []
    ensures Lines(code)[0] == Indent(Render(code[0]))
    ensures Lines(code)[1..] == Lines(code[1..])
  {
    assert Lines(code) == [Indent(Render(code[0]))] + Lines(code[1..]);
  }

  lemma HasCodeTail(code: seq<Entry>)
    requires HasCode(code) && code[0].Blank?
    ensures HasCode(code[1..])
  {
    var i :| 0 <= i < |code| && !code[i].Blank?;
    assert code[1..][i - 1] == code[i];
  }

  /**
    Only the leading blank markers are dropped: the listing keeps every entry from the first
    one that is not blank on, comment lines included.
   */
  lemma {:induction false} DropBlankKeepsCode(code: seq<Entry>)
    requires HasCode(code)
    ensures DropBlank(Lines(code)) == Lines(code[FirstCode(code)..])
  {
    BlankLineIsBlankEntry(code[0]);
    LinesTail(code);
    var lines := Lines(code);
    if code[0].Blank? {
      HasCodeTail(code);
      DropBlankKeepsCode(code[1..]);
      assert DropBlank(lines) == DropBlank(lines[1..]);
      assert FirstCode(code) == 1 + FirstCode(code[1..]);
      assert code[FirstCode(code)..] == code[1..][FirstCode(code[1..])..];
    } else {
      assert DropBlank(lines) == lines;
      assert FirstCode(code) == 0;
      assert code[0..] == code;
    }
  }

  /** Trimming a repetition of a word followed by one space leaves the copies, the last without its space. */
  lemma TrimRepeat(w: string, n: nat)
    requires n > 0 && w != [] && !IsSpace(w[0]) && !IsSpace(w[|w| - 1])
    ensures Trim(Repeat(w + " ", n)) == Repeat(w + " ", n - 1) + w
  {
    var s := w + " ";
    RepeatLast(s, n);
    var core := Repeat(s, n - 1) + w;
    assert Repeat(s, n) == [] + core + " ";
    if n > 1 {
      RepeatLast(s, n - 1);
      assert Repeat(s, n - 1) == Repeat(s, n - 2) + s;
      if n > 2 {
        RepeatFirst(s, n - 1);
      }
    }
    assert core[0] == w[0];
    TrimPadded([], core, " ");
  }

  lemma RepeatFirst(s: string, n: nat)
    requires n > 0 && s != []
    ensures Repeat(s, n)[0] == s[0]
  {
  }

  /** The zero row holds `n` zeros, each followed by a comma, separated by single spaces. */
  lemma ZeroRowShape(n: nat)
    requires n > 0
    ensures ZeroRow(n) == "  " + Repeat("0, ", n - 1) + "0,"
  {
    assert "0, " == "0," + " ";
    TrimRepeat("0,", n);
  }

  /** No line of a list holds a line break. */
  predicate SingleLines(lines: seq<string>) {
    forall i | 0 <= i < |lines| :: '\n' !in lines[i]
  }

  lemma {:induction false} DropBlankSingle(lines: seq<string>)
    requires SingleLines(lines)
    ensures SingleLines(DropBlank(lines))
    decreases |lines|
  {
    if lines != [] && IsBlankLine(lines[0]) {
      assert forall i | 0 <= i < |lines[1..]| :: lines[1..][i] == lines[i + 1];
      DropBlankSingle(lines[1..]);
    }
  }

  lemma {:induction false} RepeatAvoids(s: string, n: nat, c: char)
    requires c !in s
    ensures c !in Repeat(s, n)
  {
    if n > 0 {
      RepeatAvoids(s, n - 1, c);
    }
  }

  lemma TrimAvoids(s: string, c: char)
    requires c !in s
    ensures c !in Trim(s)
  {
    var a := SkipSpace(s, 0);
    var b := SkipSpaceBack(s, |s|);
    if a < b {
      forall i | 0 <= i < b - a ensures s[a..b][i] != c {
        assert s[a..b][i] == s[a + i];
      }
    }
  }

  lemma ZeroRowSingle(n: nat)
    ensures '\n' !in ZeroRow(n)
  {
    RepeatAvoids("0, ", n, '\n');
    TrimAvoids(Repeat("0, ", n), '\n');
  }

  lemma SingleLinesAppend(a: seq<string>, b: seq<string>)
    requires SingleLines(a) && SingleLines(b)
    ensures SingleLines(a + b)
  {
    forall i | 0 <= i < |a + b| ensures '\n' !in (a + b)[i] {
      if i < |a| {
        assert (a + b)[i] == a[i];
      } else {
        assert (a + b)[i] == b[i - |a|];
      }
    }
  }

  /** The listing text is its lines joined with line breaks. */
  lemma FrameJoin(ds: seq<string>, header: string, body: seq<string>, footer: string)
    requires ds != [] && body != []
    ensures Join(ds + ["", header] + body + [footer, ""], "\n") ==
      Join(ds, "\n") + "\n\n" + header + "\n" + Join(body, "\n") + "\n" + footer + "\n"
  {
    var a := ds + ["", header];
    var b := a + body;
    JoinAppend(ds, ["", header], "\n");
    assert Join(["", header], "\n") == "\n" + header;
    Associative(Join(ds, "\n"), "\n", "\n" + header);
    Associative(Join(ds, "\n") + "\n", "\n", header);
    assert Join(a, "\n") == Join(ds, "\n") + "\n\n" + header;
    JoinAppend(a, body, "\n");
    JoinAppend(b, [footer, ""], "\n");
    assert Join([footer, ""], "\n") == footer + "\n";
    Associative(Join(b, "\n") + "\n", footer, "\n");
  }

  lemma Associative(x: string, y: string, z: string)
    ensures x + (y + z) == x + y + z
  {
  }

  /** The frame of the listing, for any header and footer, read back line by line. */
  lemma FrameLines(ds: seq<string>, header: string, body: seq<string>, footer: string)
    requires ds != [] && body != []
    requires SingleLines(ds) && SingleLines(body) && '\n' !in header && '\n' !in footer
    ensures Split(Join(ds, "\n") + "\n\n" + header + "\n" + Join(body, "\n") + "\n" + footer + "\n", '\n') ==
      ds + ["", header] + body + [footer, ""]
  {
    FrameJoin(ds, header, body, footer);
    SingleLinesAppend(ds, ["", header]);
    SingleLinesAppend(ds + ["", header], body);
    SingleLinesAppend(ds + ["", header] + body, [footer, ""]);
    SplitOfJoin(ds + ["", header] + body + [footer, ""], '\n');
  }

  lemma {:induction false} LinesSingle(code: seq<Entry>)
    requires forall i | 0 <= i < |code| :: '\n' !in Render(code[i])
    ensures SingleLines(Lines(code))
  {
    if code != [] {
      var r := Render(code[0]);
      if !StartsWith(r, "//") {
        assert forall j | 2 <= j < |"  " + r| :: ("  " + r)[j] == r[j - 2];
      }
      assert forall i | 0 <= i < |code[1..]| :: code[1..][i] == code[i + 1];
      LinesSingle(code[1..]);
      SingleLinesAppend([Indent(r)], Lines(code[1..]));
    }
  }

  /** The body is never empty and has no line breaks when the entries have none. */
  lemma BodySingle(p: Program)
    requires HasCode(p.code)
    requires forall i | 0 <= i < |p.code| :: '\n' !in Render(p.code[i])
    ensures Body(p) != [] && SingleLines(Body(p))
  {
    var kept := DropBlank(Lines(p.code));
    LinesSingle(p.code);
    DropBlankSingle(Lines(p.code));
    DropBlankKeepsCode(p.code);
    assert |kept| == |p.code| - FirstCode(p.code) > 0;
    if p.origin.Int? && p.origin.n > 0 {
      ZeroRowSingle(p.origin.n);
      assert SingleLines([ZeroRow(p.origin.n)]);
      SingleLinesAppend([ZeroRow(p.origin.n)], kept);
    }
  }

  /**
    Read line by line, the listing is: the defines (one empty line when there are none), an
    empty line, the array header, the body lines, the closing `};`, and the empty text after the
    final line break.
   */
  lemma ListingLines(p: Program)
    requires HasCode(p.code)
    requires SingleLines(p.defines)
    requires forall i | 0 <= i < |p.code| :: '\n' !in Render(p.code[i])
    ensures Split(Listing(p), '\n') ==
      (if p.defines == [] then [""] else p.defines) + ["", Header] + Body(p) + [Footer, ""]
  {
    var ds := if p.defines == [] then [""] else p.defines;
    BodySingle(p);
    FrameSingle();
    assert Join(ds, "\n") == Join(p.defines, "\n");
    assert SingleLines(ds);
    assert Listing(p) == Join(ds, "\n") + "\n\n" + Header + "\n" + Join(Body(p), "\n") + "\n" + Footer + "\n";
    FrameLines(ds, Header, Body(p), Footer);
  }

  lemma FrameSingle()
    ensures '\n' !in Header && '\n' !in Footer
  {
  }
}
