/**
  How one source line is taken apart: trimmed, its trailing comment taken after the first `;`
  or `//`, its code part cut at a `;` or `//` that has at least one character after it, and the
  code part split on white space into a mnemonic and its arguments. The two regular expressions
  behind the comment and the cut use `.`, which stops at a line terminator; a line of the source
  holds no `\n` but may hold `\r`, U+2028 or U+2029.
 */
module LineSyntax {
  import opened Strings

  /** A `;` or a `//` starts at index `k` of `t`. */
  predicate IsMarkerAt(t: string, k: nat)
    requires k < |t|
  {
    t[k] == ';' || (k + 1 < |t| && t[k] == '/' && t[k + 1] == '/')
  }

  /** The first index at or after `i` where a comment marker starts (or `|t|`). */
  function MarkerFrom(t: string, i: nat): (j: nat)
    requires i <= |t|
    ensures i <= j <= |t|
    ensures j < |t| ==> IsMarkerAt(t, j)
    ensures forall k | i <= k < j :: !IsMarkerAt(t, k)
    decreases |t| - i
  {
    if i < |t| && !IsMarkerAt(t, i) then MarkerFrom(t, i + 1) else i
  }

  /** The characters `.` does not match in a JavaScript regular expression: the line terminators. */
  predicate IsLineTerminator(c: char) {
    c == '\n' || c == '\r' || c == '\U{2028}' || c == '\U{2029}'
  }

  predicate NoLineTerminator(t: string) {
    forall k | 0 <= k < |t| :: !IsLineTerminator(t[k])
  }

  /** The index just after the last line terminator before index `j` (or 0). */
  function LineStart(t: string, j: nat): (s: nat)
    requires j <= |t|
    ensures s <= j
    ensures s > 0 ==> IsLineTerminator(t[s - 1])
    ensures forall k | s <= k < j :: !IsLineTerminator(t[k])
    decreases j
  {
    if j > 0 && !IsLineTerminator(t[j - 1]) then LineStart(t, j - 1) else j
  }

  /** The first index at or after `i` holding a line terminator (or `|t|`). */
  function LineEnd(t: string, i: nat): (e: nat)
    requires i <= |t|
    ensures i <= e <= |t|
    ensures e < |t| ==> IsLineTerminator(t[e])
    ensures forall k | i <= k < e :: !IsLineTerminator(t[k])
    decreases |t| - i
  {
    if i < |t| && !IsLineTerminator(t[i]) then LineEnd(t, i + 1) else i
  }

  /** The length of the marker that starts at index `k`: 1 for `;`, 2 for `//`. */
  function MarkerLength(t: string, k: nat): nat
    requires k < |t|
  {
    if t[k] == ';' then 1 else 2
  }

  /**
    `trimmed.replace(/.*?($|;|\/\/)/, '')`. The leftmost match ends at the first `;` or `//` (or
    at the end of the line); since `.` does not cross a line terminator, it starts just after the
    last line terminator before that point. The match is removed and the rest kept.
   */
  function CommentOf(t: string): string {
    var j := MarkerFrom(t, 0);
    t[..LineStart(t, j)] + (if j == |t| then "" else t[j + MarkerLength(t, j)..])
  }

  /**
    `/(;|\/\/).+/` matches at index `k`: a marker followed by at least one character that is not
    a line terminator.
   */
  predicate IsCutAt(t: string, k: nat)
    requires k < |t|
  {
    || (t[k] == ';' && k + 1 < |t| && !IsLineTerminator(t[k + 1]))
    || (k + 2 < |t| && t[k] == '/' && t[k + 1] == '/' && !IsLineTerminator(t[k + 2]))
  }

  function CutFrom(t: string, i: nat): (j: nat)
    requires i <= |t|
    ensures i <= j <= |t|
    ensures j < |t| ==> IsCutAt(t, j)
    ensures forall k | i <= k < j :: !IsCutAt(t, k)
    decreases |t| - i
  {
    if i < |t| && !IsCutAt(t, i) then CutFrom(t, i + 1) else i
  }

  /**
    `trimmed.replace(/(;|\/\/).+/, '')`: the line without its first marker that has text after
    it, that text running up to the next line terminator (or the end).
   */
  function CodeOf(t: string): string {
    var k := CutFrom(t, 0);
    if k == |t| then t else t[..k] + t[LineEnd(t, k + MarkerLength(t, k))..]
  }

  /** The pieces of a line: the trimmed line, its raw trailing comment, the mnemonic as written, the arguments. */
  datatype Parts = Parts(trimmed: string, comment: string, cmdOrig: string, args: seq<string>)

  /** Lines 64-69 of the assembler: trim, take the comment, cut the code part, split it on white space. */
  function Tokenize(line: string): (p: Parts)
    ensures p.cmdOrig == "" ==> p.args == []
    ensures p.cmdOrig != "" ==> IsWord(p.cmdOrig)
    ensures forall k | 0 <= k < |p.args| :: IsWord(p.args[k])
  {
    var trimmed := Trim(line);
    var words := Words(Trim(CodeOf(trimmed)));
    Parts(trimmed, CommentOf(trimmed),
          if words == [] then "" else words[0],
          if words == [] then [] else words[1..])
  }

  /** The mnemonic of a line, upper-cased: `cmdOrig.toUpperCase()`. */
  function Mnemonic(line: string): string {
    ToUpper(Tokenize(line).cmdOrig)
  }

  /** What the assembler keeps of a line: it is trimmed, and a line with a mnemonic is not empty. */
  lemma TokenizeTrimmed(line: string)
    ensures var p := Tokenize(line);
      && Trim(p.trimmed) == p.trimmed
      && (p.cmdOrig != "" ==> p.trimmed != "")
      && (p.comment != "" ==> Trim(p.comment) != "")
  {
    var t := Trim(line);
    TrimTrimmed(line);
    if t == "" {
      assert CutFrom(t, 0) == 0 && CodeOf(t) == "";
    }
    CommentHasText(t);
  }

  /** A non-empty comment of a trimmed line holds some text that is not white space. */
  lemma CommentHasText(t: string)
    requires Trim(t) == t
    ensures CommentOf(t) != "" ==> Trim(CommentOf(t)) != ""
  {
    var c := CommentOf(t);
    if c != "" {
      var j := MarkerFrom(t, 0);
      var s := LineStart(t, j);
      assert !IsSpace(t[0]) && !IsSpace(t[|t| - 1]);
      var k := if s > 0 then 0 else |c| - 1;
      if s > 0 {
        assert c[0] == t[0];
      } else {
        assert j < |t|;
        assert c == t[j + MarkerLength(t, j)..];
        assert c[|c| - 1] == t[|t| - 1];
      }
      assert !IsSpace(c[k]);
      assert !AllSpace(c);
    }
  }

  /**
    When a line without line terminators has a non-empty trailing comment, its code part is
    exactly the text before the comment's marker, and the comment is exactly the text after it.
   */
  lemma CommentSplitsLine(t: string)
    requires NoLineTerminator(t)
    requires CommentOf(t) != ""
    ensures var j := MarkerFrom(t, 0);
      && CodeOf(t) == t[..j]
      && t == t[..j] + (if t[j] == ';' then ";" else "//") + CommentOf(t)
  {
    var j := MarkerFrom(t, 0);
    CommentAfterMarker(t);
    CodeBeforeMarker(t);
    if t[j] == ';' {
      SplitAround(t, j, ";");
    } else {
      SplitAround(t, j, "//");
    }
  }

  /** On a line without line terminators, a non-empty comment is the text after the first marker. */
  lemma CommentAfterMarker(t: string)
    requires NoLineTerminator(t)
    requires CommentOf(t) != ""
    ensures MarkerFrom(t, 0) < |t|
    ensures CommentOf(t) == t[MarkerFrom(t, 0) + MarkerLength(t, MarkerFrom(t, 0))..]
  {
    assert LineStart(t, MarkerFrom(t, 0)) == 0;
  }

  /** On a line without line terminators, a non-empty comment is cut away with its marker. */
  lemma CodeBeforeMarker(t: string)
    requires NoLineTerminator(t)
    requires CommentOf(t) != ""
    ensures CodeOf(t) == t[..MarkerFrom(t, 0)]
  {
    var j := MarkerFrom(t, 0);
    CommentAfterMarker(t);
    assert IsCutAt(t, j);
    CutAtMarker(t, 0, j);
    assert LineEnd(t, j + MarkerLength(t, j)) == |t|;
  }

  /**
    A line terminator right after a `;` keeps the `;` and the rest in the code part: for
    `PUSH 5;\rjunk` nothing is cut, so the line splits into `PUSH`, `5;` and `junk`.
   */
  lemma TerminatorStopsCut()
    ensures CodeOf("PUSH 5;\rjunk") == "PUSH 5;\rjunk"
  {
    var t := "PUSH 5;\rjunk";
    forall k | 0 <= k < |t| ensures !IsCutAt(t, k) {
      if k != 6 {
        assert t[k] != ';' && t[k] != '/';
      }
    }
    NoCutFrom(t, 0);
  }

  lemma {:induction false} NoCutFrom(t: string, i: nat)
    requires i <= |t| && forall k | i <= k < |t| :: !IsCutAt(t, k)
    ensures CutFrom(t, i) == |t|
    decreases |t| - i
  {
    if i < |t| {
      NoCutFrom(t, i + 1);
    }
  }

  /**
    A line terminator before the first marker keeps the text up to it in the comment: the
    comment of `a\r;c` is `a\rc`.
   */
  lemma TerminatorKeepsComment()
    ensures CommentOf("a\r;c") == "a\rc"
  {
    var t := "a\r;c";
    assert !IsMarkerAt(t, 0) && !IsMarkerAt(t, 1) && IsMarkerAt(t, 2);
    assert MarkerFrom(t, 2) == 2;
    assert MarkerFrom(t, 0) == 2;
    assert LineStart(t, 2) == 2;
    assert t[..2] == "a\r" && t[3..] == "c";
  }

  /** A text is what comes before `j`, the marker `m` found at `j`, and what follows it. */
  lemma SplitAround(t: string, j: nat, m: string)
    requires j + |m| <= |t| && t[j..j + |m|] == m
    ensures t == t[..j] + m + t[j + |m|..]
  {
    assert t == t[..j] + t[j..j + |m|] + t[j + |m|..];
  }

  lemma CutAtMarker(t: string, i: nat, j: nat)
    requires i <= j < |t| && (forall k | i <= k < j :: !IsMarkerAt(t, k))
    requires IsCutAt(t, j)
    ensures CutFrom(t, i) == j
    decreases j - i
  {
    if i < j {
      assert !IsMarkerAt(t, i);
      assert !IsCutAt(t, i);
      CutAtMarker(t, i + 1, j);
    }
  }

  /** Characters that never take part in a comment marker or in white space. */
  predicate IsPlainWord(w: string) {
    IsWord(w) && ';' !in w && '/' !in w
  }

  lemma {:induction false} JoinAvoids(ws: seq<string>, c: char)
    requires c != ' ' && forall k | 0 <= k < |ws| :: c !in ws[k]
    ensures c !in Join(ws, " ")
  {
    if |ws| > 1 {
      JoinAvoids(ws[1..], c);
      assert forall k | 0 <= k < |ws[1..]| :: ws[1..][k] == ws[k + 1];
    }
  }

  lemma {:induction false} JoinNoTerminator(ws: seq<string>)
    requires forall k | 0 <= k < |ws| :: NoSpace(ws[k])
    ensures NoLineTerminator(Join(ws, " "))
  {
    if |ws| == 1 {
      assert Join(ws, " ") == ws[0];
    } else if |ws| > 1 {
      assert forall k | 0 <= k < |ws[1..]| :: ws[1..][k] == ws[k + 1];
      JoinNoTerminator(ws[1..]);
      var u := Join(ws, " ");
      assert u == ws[0] + " " + Join(ws[1..], " ");
      forall k | 0 <= k < |u| ensures !IsLineTerminator(u[k]) {
        if k < |ws[0]| {
          assert u[k] == ws[0][k];
        } else if k > |ws[0]| {
          assert u[k] == Join(ws[1..], " ")[k - |ws[0]| - 1];
        }
      }
    }
  }

  /** A line of plain words joined by spaces starts with its first word and ends with its last. */
  lemma {:induction false} JoinEnds(ws: seq<string>)
    requires |ws| >= 1 && forall k | 0 <= k < |ws| :: ws[k] != []
    ensures Join(ws, " ") != [] && Join(ws, " ")[0] == ws[0][0]
    ensures Join(ws, " ")[|Join(ws, " ")| - 1] == ws[|ws| - 1][|ws[|ws| - 1]| - 1]
  {
    if |ws| > 1 {
      assert forall k | 0 <= k < |ws[1..]| :: ws[1..][k] == ws[k + 1];
      JoinEnds(ws[1..]);
    }
  }

  lemma {:induction false} NoMarkerFrom(t: string, i: nat)
    requires i <= |t| && ';' !in t && '/' !in t
    ensures MarkerFrom(t, i) == |t| && CutFrom(t, i) == |t|
    decreases |t| - i
  {
    if i < |t| {
      NoMarkerFrom(t, i + 1);
    }
  }

  /** A line of plain words joined by single spaces is its own trimmed form and has no comment marker. */
  lemma PlainLineBare(ws: seq<string>)
    requires |ws| >= 1 && forall k | 0 <= k < |ws| :: IsPlainWord(ws[k])
    ensures var t := Join(ws, " "); Trim(t) == t && CommentOf(t) == "" && CodeOf(t) == t
  {
    var t := Join(ws, " ");
    JoinEnds(ws);
    TrimPadded("", t, "");
    assert "" + t + "" == t;
    JoinAvoids(ws, ';');
    JoinAvoids(ws, '/');
    JoinNoTerminator(ws);
    NoMarkerFrom(t, 0);
    assert LineStart(t, |t|) == 0;
    assert t[..|t|] == t;
  }

  /** A line of plain words joined by single spaces has no comment, and its words are its mnemonic and arguments. */
  lemma PlainLineTokens(ws: seq<string>)
    requires |ws| >= 1 && forall k | 0 <= k < |ws| :: IsPlainWord(ws[k])
    ensures var t := Join(ws, " "); Tokenize(t) == Parts(t, "", ws[0], ws[1..])
  {
    PlainLineBare(ws);
    WordsOfJoin(ws);
  }
}
