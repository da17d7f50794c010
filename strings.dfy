/**
  The JavaScript string operations the assembler relies on, stated on Dafny strings:
  `trim`, splitting on white space runs (`split(/\s+/)`), splitting on one character
  (`split('\n')`, `split(' ')`), `join`, `toUpperCase` on ASCII letters and `repeat`.
 */
module Strings {

  /** The characters JavaScript's `trim` removes and its `\s` class matches (WhiteSpace and LineTerminator). */
  predicate IsSpace(c: char) {
    || c == ' ' || c == '\t' || c == '\n' || c == '\U{000B}' || c == '\U{000C}' || c == '\r'
    || c == '\U{00A0}' || c == '\U{1680}' || ('\U{2000}' <= c <= '\U{200A}')
    || c == '\U{2028}' || c == '\U{2029}' || c == '\U{202F}' || c == '\U{205F}'
    || c == '\U{3000}' || c == '\U{FEFF}'
  }

  predicate NoSpace(s: string) {
    forall i | 0 <= i < |s| :: !IsSpace(s[i])
  }

  predicate AllSpace(s: string) {
    forall i | 0 <= i < |s| :: IsSpace(s[i])
  }

  /** The first index at or after `i` that does not hold white space (or `|s|`). */
  function SkipSpace(s: string, i: nat): (j: nat)
    requires i <= |s|
    ensures i <= j <= |s|
    ensures forall k | i <= k < j :: IsSpace(s[k])
    ensures j < |s| ==> !IsSpace(s[j])
    decreases |s| - i
  {
    if i < |s| && IsSpace(s[i]) then SkipSpace(s, i + 1) else i
  }

  /** The index just after the last non-space character before index `j` (or 0). */
  function SkipSpaceBack(s: string, j: nat): (k: nat)
    requires j <= |s|
    ensures k <= j
    ensures forall m | k <= m < j :: IsSpace(s[m])
    ensures k > 0 ==> !IsSpace(s[k - 1])
    decreases j
  {
    if j > 0 && IsSpace(s[j - 1]) then SkipSpaceBack(s, j - 1) else j
  }

  /** `String.prototype.trim`: `s` without its leading and trailing white space. */
  function Trim(s: string): (r: string)
    ensures |r| <= |s|
    ensures r == [] <==> AllSpace(s)
    ensures r != [] ==> !IsSpace(r[0]) && !IsSpace(r[|r| - 1])
  {
    var a := SkipSpace(s, 0);
    var b := SkipSpaceBack(s, |s|);
    if a < b then s[a..b] else []
  }

  /** Trimming twice is trimming once. */
  lemma TrimTrimmed(s: string)
    ensures Trim(Trim(s)) == Trim(s)
  {
    var r := Trim(s);
    TrimPadded("", r, "");
    assert "" + r + "" == r;
  }

  /** Trimming a string with white space only at its ends gives back its core. */
  lemma TrimPadded(lead: string, core: string, trail: string)
    requires AllSpace(lead) && AllSpace(trail)
    requires core == [] || (!IsSpace(core[0]) && !IsSpace(core[|core| - 1]))
    ensures Trim(lead + core + trail) == core
  {
    var s := lead + core + trail;
    if core == [] {
      assert AllSpace(s);
    } else {
      SkipSpaceAt(s, 0, |lead|);
      SkipSpaceBackAt(s, |s|, |lead| + |core|);
      assert s[|lead|..|lead| + |core|] == core;
    }
  }

  lemma SkipSpaceAt(s: string, i: nat, j: nat)
    requires i <= j < |s| && !IsSpace(s[j])
    requires forall k | i <= k < j :: IsSpace(s[k])
    ensures SkipSpace(s, i) == j
    decreases j - i
  {
    if i < j {
      SkipSpaceAt(s, i + 1, j);
    }
  }

  lemma SkipSpaceBackAt(s: string, j: nat, k: nat)
    requires 0 < k <= j <= |s| && !IsSpace(s[k - 1])
    requires forall m | k <= m < j :: IsSpace(s[m])
    ensures SkipSpaceBack(s, j) == k
    decreases j - k
  {
    if k < j {
      SkipSpaceBackAt(s, j - 1, k);
    }
  }

  /** The index just after the run of non-space characters starting at `i`. */
  function WordEnd(s: string, i: nat): (j: nat)
    requires i <= |s|
    ensures i <= j <= |s|
    ensures forall k | i <= k < j :: !IsSpace(s[k])
    ensures j < |s| ==> IsSpace(s[j])
    decreases |s| - i
  {
    if i < |s| && !IsSpace(s[i]) then WordEnd(s, i + 1) else i
  }

  predicate IsWord(w: string) {
    w != [] && NoSpace(w)
  }

  /** `s.trim().split(/\s+/)`, the maximal runs of non-space characters in order — except that an all-space `s` gives no word where JavaScript gives `[""]`. */
  function Words(s: string): (ws: seq<string>)
    ensures forall k | 0 <= k < |ws| :: IsWord(ws[k])
    decreases |s|
  {
    if s == [] then []
    else if IsSpace(s[0]) then Words(s[1..])
    else
      var b := WordEnd(s, 0);
      assert IsWord(s[..b]) by {
        forall k | 0 <= k < b ensures !IsSpace(s[..b][k]) {
          assert s[..b][k] == s[k];
        }
      }
      [s[..b]] + Words(s[b..])
  }

  /** `Array.prototype.join`. */
  function Join(parts: seq<string>, sep: string): string {
    if |parts| == 0 then []
    else if |parts| == 1 then parts[0]
    else parts[0] + sep + Join(parts[1..], sep)
  }

  /** Splitting words joined by single spaces gives the words back. */
  lemma {:induction false} WordsOfJoin(ws: seq<string>)
    requires forall k | 0 <= k < |ws| :: IsWord(ws[k])
    ensures Words(Join(ws, " ")) == ws
  {
    if |ws| == 1 {
      var w := ws[0];
      WordEndAll(w, 0);
      assert w[..|w|] == w;
      assert w[|w|..] == [];
    } else if |ws| > 1 {
      var w := ws[0];
      var rest := Join(ws[1..], " ");
      var s := w + (" " + rest);
      assert Join(ws, " ") == s;
      assert s[0] == w[0];
      WordEndPrefix(w, " " + rest, 0);
      assert s[..|w|] == w;
      assert s[|w|..] == " " + rest;
      assert (" " + rest)[1..] == rest;
      WordsOfJoin(ws[1..]);
    }
  }

  lemma WordEndAll(w: string, i: nat)
    requires i <= |w| && NoSpace(w)
    ensures WordEnd(w, i) == |w|
    decreases |w| - i
  {
    if i < |w| {
      WordEndAll(w, i + 1);
    }
  }

  lemma WordEndPrefix(w: string, rest: string, i: nat)
    requires i <= |w| && NoSpace(w) && rest != [] && IsSpace(rest[0])
    ensures WordEnd(w + rest, i) == |w|
    decreases |w| - i
  {
    var s := w + rest;
    if i < |w| {
      assert s[i] == w[i];
      WordEndPrefix(w, rest, i + 1);
    } else {
      assert s[|w|] == rest[0];
    }
  }

  /** The first index at or after `i` holding `c` (or `|s|`). */
  function IndexOf(s: string, c: char, i: nat): (j: nat)
    requires i <= |s|
    ensures i <= j <= |s|
    ensures j < |s| ==> s[j] == c
    decreases |s| - i
  {
    if i < |s| && s[i] != c then IndexOf(s, c, i + 1) else i
  }

  /** No occurrence of `c` lies between `i` and `IndexOf(s, c, i)`. */
  lemma {:induction false} IndexOfSkips(s: string, c: char, i: nat)
    requires i <= |s|
    ensures c !in s[i..IndexOf(s, c, i)]
    decreases |s| - i
  {
    if i < |s| && s[i] != c {
      IndexOfSkips(s, c, i + 1);
      assert s[i..IndexOf(s, c, i)] == [s[i]] + s[i + 1..IndexOf(s, c, i + 1)];
    }
  }

  /** `String.prototype.split` with a one-character separator: always at least one piece. */
  function Split(s: string, c: char): (parts: seq<string>)
    ensures |parts| >= 1
    decreases |s|
  {
    var j := IndexOf(s, c, 0);
    if j == |s| then [s] else [s[..j]] + Split(s[j + 1..], c)
  }

  /** No piece of a split holds the separator. */
  lemma {:induction false} SplitPieces(s: string, c: char)
    ensures forall k | 0 <= k < |Split(s, c)| :: c !in Split(s, c)[k]
    decreases |s|
  {
    var j := IndexOf(s, c, 0);
    IndexOfSkips(s, c, 0);
    assert s[..j] == s[0..j];
    if j < |s| {
      SplitPieces(s[j + 1..], c);
    }
  }

  /** Joining the pieces of a split with the separator gives back the string. */
  lemma {:induction false} JoinSplit(s: string, c: char)
    ensures Join(Split(s, c), [c]) == s
    decreases |s|
  {
    var j := IndexOf(s, c, 0);
    if j < |s| {
      JoinSplit(s[j + 1..], c);
      assert s == s[..j] + [c] + s[j + 1..];
    }
  }

  lemma IndexOfAbsent(s: string, c: char, i: nat)
    requires i <= |s| && c !in s
    ensures IndexOf(s, c, i) == |s|
    decreases |s| - i
  {
    if i < |s| {
      IndexOfAbsent(s, c, i + 1);
    }
  }

  /** Splitting pieces joined with a separator they do not hold gives the pieces back. */
  lemma {:induction false} SplitOfJoin(parts: seq<string>, c: char)
    requires |parts| >= 1
    requires forall k | 0 <= k < |parts| :: c !in parts[k]
    ensures Split(Join(parts, [c]), c) == parts
  {
    var p := parts[0];
    if |parts| == 1 {
      IndexOfAbsent(p, c, 0);
    } else {
      var rest := Join(parts[1..], [c]);
      var s := p + [c] + rest;
      assert Join(parts, [c]) == s;
      IndexOfAbsent(p, c, 0);
      assert IndexOf(s, c, 0) == |p| by {
        IndexOfPrefix(p, [c] + rest, c, 0);
        assert s == p + ([c] + rest);
      }
      assert s[..|p|] == p;
      assert s[|p| + 1..] == rest;
      SplitOfJoin(parts[1..], c);
    }
  }

  lemma IndexOfPrefix(p: string, rest: string, c: char, i: nat)
    requires i <= |p| && c !in p && rest != [] && rest[0] == c
    ensures IndexOf(p + rest, c, i) == |p|
    decreases |p| - i
  {
    var s := p + rest;
    if i < |p| {
      assert s[i] == p[i];
      IndexOfPrefix(p, rest, c, i + 1);
    } else {
      assert s[|p|] == rest[0];
    }
  }

  function UpperChar(c: char): char {
    if 'a' <= c <= 'z' then (c as int - 32) as char else c
  }

  /** `String.prototype.toUpperCase`, restricted to the ASCII letters. */
  function ToUpper(s: string): (r: string)
    ensures |r| == |s|
    ensures forall i | 0 <= i < |s| :: r[i] == UpperChar(s[i])
  {
    if s == [] then [] else [UpperChar(s[0])] + ToUpper(s[1..])
  }

  predicate StartsWith(s: string, prefix: string) {
    |prefix| <= |s| && s[..|prefix|] == prefix
  }

  /** `String.prototype.repeat`. */
  function Repeat(s: string, n: nat): (r: string)
    ensures |r| == n * |s|
  {
    if n == 0 then [] else s + Repeat(s, n - 1)
  }

  /** Joining two non-empty lists is joining each and putting the separator between them. */
  lemma {:induction false} JoinAppend(a: seq<string>, b: seq<string>, sep: string)
    requires a != [] && b != []
    ensures Join(a + b, sep) == Join(a, sep) + sep + Join(b, sep)
  {
    assert (a + b)[0] == a[0];
    if |a| == 1 {
      assert (a + b)[1..] == b;
    } else {
      assert (a + b)[1..] == a[1..] + b;
      JoinAppend(a[1..], b, sep);
    }
  }

  /** `s.repeat(n)` ends with a last copy of `s`. */
  lemma {:induction false} RepeatLast(s: string, n: nat)
    requires n > 0
    ensures Repeat(s, n) == Repeat(s, n - 1) + s
  {
    if n > 1 {
      RepeatLast(s, n - 1);
    }
  }
}
