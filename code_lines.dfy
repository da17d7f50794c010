/**
  The entries of the assembled `code` list. The source keeps them as strings; here each is a
  structured value that `Render` turns into exactly the string the source pushes.
 */
module CodeLines {
  import opened Strings

  /** The text of a byte slot, before its trailing `,`. */
  datatype Value =
    | LabelRef(symbol: string)         // `LABEL_<symbol>`: resolved when bytes are extracted
    | Named(text: string, name: string) // `<text> /* <name> */`: a constant substituted by `immediate`
    | Literal(text: string)            // a numeral written out verbatim
    | OpChar(op: char)                 // `'<op>'`: an opcode character
    | Pad                              // `0 /* pad */`: CALL padding

  /**
    One code entry: a byte slot carrying the raw trailing comment of its source line (empty when
    none is attached), a blank marker, or a `// <text>` comment marker. Markers hold no byte.
   */
  datatype Entry = Byte(value: Value, comment: string) | Blank | Comment(text: string)

  function ValueText(v: Value): string {
    match v
    case LabelRef(symbol) => "LABEL_" + symbol
    case Named(text, name) => text + " /* " + name + " */"
    case Literal(text) => text
    case OpChar(op) => "'" + [op] + "'"
    case Pad => "0 /* pad */"
  }

  /** The string the source pushes for an entry. */
  function Render(e: Entry): string {
    match e
    case Byte(v, comment) =>
      ValueText(v) + "," + (if comment != "" then "       // " + Trim(comment) else "")
    case Blank => ""
    case Comment(text) => "// " + text
  }

  /** The number of byte slots of a code list; markers do not count. */
  function ByteCount(code: seq<Entry>): nat {
    if code == [] then 0
    else ByteCount(code[..|code| - 1]) + (if code[|code| - 1].Byte? then 1 else 0)
  }

  /** `n` entries `0 /* pad */`, none carrying a comment. */
  function Pads(n: nat): seq<Entry> {
    seq(n, _ => Byte(Pad, ""))
  }

  lemma {:induction false} ByteCountAppend(a: seq<Entry>, b: seq<Entry>)
    ensures ByteCount(a + b) == ByteCount(a) + ByteCount(b)
    decreases |b|
  {
    if b != [] {
      var b' := b[..|b| - 1];
      assert (a + b)[..|a + b| - 1] == a + b';
      ByteCountAppend(a, b');
    } else {
      assert a + b == a;
    }
  }

  lemma {:induction false} ByteCountPads(n: nat)
    ensures ByteCount(Pads(n)) == n
  {
    if n > 0 {
      assert Pads(n)[..n - 1] == Pads(n - 1);
      ByteCountPads(n - 1);
    }
  }

  lemma ByteCountOne(e: Entry)
    ensures ByteCount([e]) == if e.Byte? then 1 else 0
  {
    assert [e][..0] == [];
  }
}
