# HLSPL assembler, modelled in Dafny

HLSPL is a small assembler for a one-byte-per-slot stack machine. `HLSPL(source)` reads the
source text line by line and produces the record `{origin, code, defines}`:

- `code`: the rendered byte slots and comment lines;
- `defines`: one `#define` per symbol;
- `origin`: the base address.

Two readers consume that record:

- `formatSPLCode` renders it as a C array listing;
- `SPLBytes` decodes the code lines back into byte values, resolving names through the defines.

The model follows the program's structure.

**Pure operations**
- `Immediates.Immediate`: operand resolution.
- `LineSyntax.Tokenize`: the splitting of a line into mnemonic, arguments and trailing comment.
- `Encoder.Step` / `Encoder.Run` / `Encoder.Assemble`: what one line does to the assembly state, the fold over the lines, and the result.

**Imperative code**, each part proved to compute exactly the specification:
- `Assembler.Assembler`: a class whose fields are the loop variables of `HLSPL`.
  - Its methods push entries, swap the last two entries in place and run the padding loop.
  - One method per branch of the `if` chain, all dispatched by `Assembler.Assembler.AssembleLine`.
- `Assembler.HLSPL`: the loop over the lines.
- `Listing.FormatSPLCode`: the `shift` loop of `formatSPLCode`.
- `ByteExtract.SPLBytes`: the loop that fills `defineMap`, then the `map`/`filter` over the code.

**Facts proved about the specification**, in Encoder, EncoderFacts, Listing and ByteExtract:
- `offset` counts the byte slots.
- The width of each instruction class.
- The layout of the calling sequence and its return address.
- What directives and labels bind.
- The line an error names.
- The line structure of the listing.
- The round trip from a symbol table through the defines back to numbers.
- The successful decoding of every kind of slot.

**What the assembler's output promises the byte reader**, in AssembledBytes. These facts hold for the model's reading of code lines (`ByteExtract.BareText`), which assumes that no code line holds a line terminator; a source line holding `\r`, U+2028 or U+2029 can break that (see "## Left out"):
- Every code line of a program `HLSPL` returns decodes to a byte exactly when it is a byte slot (`FilledSlots`).
- Its symbol table binds space-free names to single words (`SpaceFree`).
- So `SPLBytes` reads back as many bytes as the final `offset`, and each define as the number its symbol holds.

`Encoder.Parse` and `Encoder.ParseAll` only wrap `LineSyntax.Tokenize` and `Encoder.Classify`: they pair each line's tokens with its upper-cased mnemonic and the branch it takes. The facts about a line are stated on those two.

The code entries are structured values: `CodeLines.Entry` is a byte slot, a blank marker or a comment marker. `CodeLines.Render` turns each into exactly the string the source pushes. The regular expressions of `SPLBytes` are modelled as what they do to those rendered forms (`ByteExtract.BareText`).

The unit tests of `src/hlspl.spec.ts:5-31` are stated as lemmas in module Examples. The integration test of `src/hlspl.spec.ts:34-118` is stated in modules Integration and IntegrationSlots, for the bytes it expects: the program record the assembler leaves for that source is written out entry by entry, and the 28 bytes are proved to be what `SPLBytes` reads from it.

Behaviour of the code worth noting:

- **`STOP`** takes any arguments. The code does not check them (src/hlspl.ts:114-115).
- **Label comments.** A label line is recorded as `// ` plus the *trimmed* line, not the line verbatim (src/hlspl.ts:136).
- **Redefinitions.** A label defined twice is not an error: the second definition overwrites the first in place (src/hlspl.ts:135). `.ORIGIN` may be given any number of times (src/hlspl.ts:78-80).
- **Leading lines in the listing.** Only leading lines that are blank after trimming are dropped; leading `//` lines stay (src/hlspl.ts:152-154).
- **Zero-operand instructions.** They push their opcode before rejecting arguments (src/hlspl.ts:125-128). The error discards the whole result, so only the error is observable.
- **Names bound to 0.** In `SPLBytes`, a name whose define is 0 or NaN is not found (src/hlspl.ts:185). A reference `LABEL_x` to a label at address 0 then fails with `Invalid C-SPL input`.

## Model

| member | source | states |
|---|---|---|
| Immediates.Immediate | src/hlspl.ts:38-53 | a literal result is the token itself and a safe byte; every result is a label placeholder, a named constant or a literal; errors are `Invalid int value` or `PUSH reserved value` for that token |
| Immediates.ImmediateText | src/hlspl.ts:39-44 | `@name` renders `LABEL_name`; a bound name renders `<text> /* name */`; anything else renders the token unchanged |
| Immediates.ImmediateRejects | src/hlspl.ts:45-52 | for an unbound non-label token: success iff it is a safe byte; `Invalid int value` iff NaN or at least 256; `PUSH reserved value` iff below 256 and the code of a reserved opcode character |
| Numerals.ParseNumeral | src/hlspl.ts:45 | the parse has a value exactly when the text is a decimal or `0x` hexadecimal numeral |
| Numerals.ParseDecimal | src/hlspl.ts:102 | `parseInt(_, 10)` has a value exactly when the text is a decimal numeral |
| Numerals.NatToString | src/hlspl.ts:80 | `toString` of a number is a decimal numeral |
| Numerals.Add | src/hlspl.ts:103 | a sum has a value iff both operands do, and then it is their sum (NaN propagates) |
| Numerals.CharCode | src/hlspl.ts:49 | `String.fromCharCode` code is below 65536 and equals the number when the number is |
| Numerals.ParseDecimalOfNatToString | src/hlspl.ts:103 | parsing the decimal text of a number gives the number back |
| Numerals.ParseNumeralOfNatToString | src/hlspl.ts:172 | `parseInt` of a number's `toString` is that number |
| Numerals.ParseDecimalOfNumberText | src/hlspl.ts:79-80 | the text `.ORIGIN` records parses back to the origin, NaN included |
| Numerals.NumberTextInjective | src/hlspl.ts:80 | distinct numbers have distinct texts |
| Opcodes.FindCode | src/hlspl.ts:49 | `opCodes.includes`: the first position holding the character code, or the end when none does |
| Opcodes.ReservedCodeMeaning | src/hlspl.ts:26 | a code is reserved iff some character of `,><=@&\|^+-2?!rwxz` has it |
| Opcodes.ReservedChar | src/hlspl.ts:26 | every character of the opcode string is a reserved code |
| Opcodes.TablesListMnemonics | src/hlspl.ts:3-24 | the two tables have exactly the listed mnemonics and share none |
| Opcodes.OpcodesAreReserved | src/hlspl.ts:3-26 | every opcode of both tables is a reserved character |
| Opcodes.ReservedAreOpcodes | src/hlspl.ts:3-26 | every reserved character is the opcode of some mnemonic |
| Strings.Trim | src/hlspl.ts:64 | `trim` result is no longer than its input, empty iff the input is all white space, and starts and ends with non-space |
| Strings.TrimTrimmed | src/hlspl.ts:64-68 | trimming twice is trimming once |
| Strings.Words | src/hlspl.ts:69 | every piece of the white-space split is a non-empty word without white space |
| Strings.WordsOfJoin | src/hlspl.ts:66-69 | splitting words joined by single spaces gives the words back |
| Strings.Split | src/hlspl.ts:61 | `split('\n')` always gives at least one piece |
| Strings.SplitPieces | src/hlspl.ts:61 | no piece holds the separator |
| Strings.JoinSplit | src/hlspl.ts:61 | joining the pieces with the separator gives the text back |
| Strings.SplitOfJoin | src/hlspl.ts:61 | splitting pieces joined by a separator they avoid gives the pieces back |
| Strings.ToUpper | src/hlspl.ts:75 | `toUpperCase` keeps the length and maps every character |
| Strings.Repeat | src/hlspl.ts:156 | `repeat(n)` has `n` times the length |
| Symbols.Lookup | src/hlspl.ts:42 | `symbols[k]` is defined iff `k` is a key |
| Symbols.Bind | src/hlspl.ts:80 | after `symbols[k] = v`, `k` holds `v`, every other key holds what it held, and a known key keeps the key order |
| Symbols.BindAppends | src/hlspl.ts:89 | a new key is appended at the end of the insertion order |
| Symbols.BindKeepsUnique | src/hlspl.ts:58 | keys stay distinct |
| CodeLines.ByteCountAppend | src/hlspl.ts:70-74 | the byte slots of two code runs add up |
| CodeLines.ByteCountPads | src/hlspl.ts:111-113 | `n` pads are `n` byte slots |
| LineSyntax.MarkerFrom | src/hlspl.ts:65 | the position of the first `;` or `//` from a position, or the end; the comment keeps the text before the last line terminator ahead of it (`LineStart`), since `.` does not cross one |
| LineSyntax.CutFrom | src/hlspl.ts:67 | the first `;` or `//` followed by a character that is not a line terminator, or the end; the cut runs up to the next line terminator (`LineEnd`) |
| LineSyntax.Tokenize | src/hlspl.ts:64-69 | an empty mnemonic comes with no arguments; the mnemonic and every argument are words |
| LineSyntax.TokenizeTrimmed | src/hlspl.ts:64-69 | the kept line is trimmed, a line with a mnemonic is not empty, and a non-empty comment has text that is not white space |
| LineSyntax.CommentHasText | src/hlspl.ts:64-65 | a non-empty comment of a trimmed line is not all white space, line terminators included |
| LineSyntax.CommentSplitsLine | src/hlspl.ts:65-67 | on a line without line terminators and with a non-empty comment, the trimmed line is its code part, the marker, then the comment |
| LineSyntax.CommentAfterMarker | src/hlspl.ts:65 | on a line without line terminators, a non-empty comment is all the text after the first marker |
| LineSyntax.CodeBeforeMarker | src/hlspl.ts:67 | on a line without line terminators, a non-empty comment is cut away with its marker, leaving the text before it |
| LineSyntax.TerminatorStopsCut | src/hlspl.ts:67 | for `PUSH 5;` + `\r` + `junk` nothing is cut, because the character after `;` is a line terminator |
| LineSyntax.TerminatorKeepsComment | src/hlspl.ts:65 | for `a` + `\r` + `;c` the comment is `a` + `\r` + `c`: the text before the line terminator stays in it |
| LineSyntax.CutAtMarker | src/hlspl.ts:65-67 | a marker followed by text is where the code part is cut |
| LineSyntax.NoMarkerFrom | src/hlspl.ts:65-67 | a line without `;` or `/` has no comment and is not cut |
| LineSyntax.PlainLineBare | src/hlspl.ts:64-67 | a line of plain words is already trimmed, has no comment and is its own code part |
| LineSyntax.PlainLineTokens | src/hlspl.ts:64-69 | a line of plain words tokenizes into its first word and the rest as arguments |
| Encoder.Classify | src/hlspl.ts:75-140 | the empty mnemonic, and only it, is not a command; a label mnemonic starts with `:` |
| Encoder.Step | src/hlspl.ts:62-140 | a line advances the line number by one, never removes code, pushes exactly when it is not a directive, and an error names this line |
| Encoder.MarkerStep | src/hlspl.ts:76-77 | an empty or comment-only line pushes one marker and never fails |
| Encoder.OriginStep | src/hlspl.ts:78-80 | `.ORIGIN` never fails and pushes nothing |
| Encoder.ConstStep | src/hlspl.ts:81-89 | `CONST` pushes nothing, and its errors name its line |
| Encoder.PushStep | src/hlspl.ts:90-94 | `PUSH` pushes exactly one entry |
| Encoder.StopStep | src/hlspl.ts:114-115 | `STOP` always succeeds with one entry |
| Encoder.OneOperandStep | src/hlspl.ts:116-123 | a one-operand instruction pushes at least one entry |
| Encoder.SimpleStep | src/hlspl.ts:124-128 | a zero-operand instruction pushes exactly one entry |
| Encoder.LabelStep | src/hlspl.ts:129-137 | a label pushes the comment `// <trimmed line>` |
| Encoder.CallStep | src/hlspl.ts:95-113 | a calling sequence pushes at least three entries |
| EncoderFacts.ClassifyNames | src/hlspl.ts:75-140 | each branch is taken for exactly its mnemonics, and the table branches carry the table's opcode |
| EncoderFacts.AppendKeepsGood | src/hlspl.ts:70-74 | pushing one entry and counting it when it is a byte keeps `offset` equal to the byte slots |
| EncoderFacts.CallSequenceKeepsGood | src/hlspl.ts:99-113 | the calling sequence keeps the offset invariant |
| EncoderFacts.CallStepIsSequence | src/hlspl.ts:95-113 | a successful CALL has one or two arguments, resolved return address and target, and is that sequence |
| EncoderFacts.CallKeepsGood | src/hlspl.ts:95-113 | CALL keeps the offset invariant and advances the offset by 3 (`CALL1`) or 4 (`CALLX`) plus the padding |
| EncoderFacts.OneOperandKeepsGood | src/hlspl.ts:116-123 | a one-operand instruction advances the offset by 1 plus its argument count |
| EncoderFacts.StepWidth | src/hlspl.ts:70-137 | every line keeps `offset` equal to the byte slots of `code` and advances it by the line's class width |
| EncoderFacts.LabelDefinition | src/hlspl.ts:129-137 | a label fails iff `offset + origin` is a reserved code, with the label's error; otherwise it binds `LABEL_<name>` to that value, changes no other symbol, pushes the trimmed line and keeps offset and origin |
| EncoderFacts.ConstDefinition | src/hlspl.ts:81-89 | `CONST` succeeds iff it has two arguments and the name is unbound; the two errors; on success the pair is appended unevaluated and nothing else changes |
| EncoderFacts.OriginDefinition | src/hlspl.ts:78-80 | `.ORIGIN` sets the origin to its parsed argument (NaN if absent) and binds `SPELL_ORIGIN` to its text, with no duplicate check |
| EncoderFacts.ArgumentChecks | src/hlspl.ts:82-84 | the argument-count errors of `PUSH`, `CONST`, CALL and both instruction tables; `STOP`, `.ORIGIN` and empty lines never fail; an unknown mnemonic is `Unknown command` |
| EncoderFacts.InstructionLayout | src/hlspl.ts:90-125 | `PUSH`, `STOP` and the table instructions push exactly their slots; the opcode or value slot carries the comment and the operand slot does not; operand errors are reported |
| EncoderFacts.Call1SequenceLayout | src/hlspl.ts:102-113 | for `CALL1` the return address takes the place of the previous entry, which moves after it, then the target, the jump and the pads |
| EncoderFacts.CallXSequenceLayout | src/hlspl.ts:99-113 | for `CALLX` the return address comes before the exchange opcode, then the target, the jump and the pads |
| EncoderFacts.CallStepLayout | src/hlspl.ts:95-113 | the full CALL layout and its width, with the return address resolving `origin + offset after the sequence` |
| EncoderFacts.CallLayout | src/hlspl.ts:95-113 | a CALL line's slots: code before kept, the return address with the comment, the displaced entry or `'x'`, the target without comment, `'='` with the comment, the pads; the return address points past the sequence |
| EncoderFacts.RunWidth | src/hlspl.ts:61-141 | a successful run keeps the offset invariant, adds every line's width and counts every line |
| EncoderFacts.NoLeadingCall1Prefix | src/hlspl.ts:106-108 | the exclusion of a leading `CALL1` carries over to every prefix of the lines |
| EncoderFacts.RunFailsAtLine | src/hlspl.ts:61-63 | a failed run fails at a line within the source; the lines before it succeed, and that line raises the error |
| EncoderFacts.RunPrefix | src/hlspl.ts:61 | a run over a prefix starts with the first line's step |
| EncoderFacts.AssembleErrorLine | src/hlspl.ts:62-63 | an assembly error names a 1-based line of the source |
| EncoderFacts.StepKeepsSymbol | src/hlspl.ts:80-135 | a line that does not write a symbol leaves its binding alone |
| EncoderFacts.RunKeepsSymbol | src/hlspl.ts:61-141 | a binding survives every later line that does not write it, so a label's value is the same wherever it is referenced |
| Assembler.Assembler.constructor | src/hlspl.ts:56-60 | the fields start as the initial state |
| Assembler.Assembler.Emit | src/hlspl.ts:70-74 | `emitCommand` pushes one slot, with the comment only when `main`, and increments the offset |
| Assembler.Assembler.SwapLastTwo | src/hlspl.ts:106-108 | the last two entries change places and nothing else changes |
| Assembler.Assembler.EmitPadding | src/hlspl.ts:111-113 | the padding loop pushes `count` pads and advances the offset by `count` |
| Assembler.Assembler.Marker | src/hlspl.ts:76-77 | the method performs the marker step |
| Assembler.Assembler.Origin | src/hlspl.ts:78-80 | the method performs the `.ORIGIN` step |
| Assembler.Assembler.Const | src/hlspl.ts:81-89 | the method performs the `CONST` step, or returns its error |
| Assembler.Assembler.Push | src/hlspl.ts:90-94 | the method performs the `PUSH` step, or returns its error |
| Assembler.Assembler.Stop | src/hlspl.ts:114-115 | the method performs the `STOP` step |
| Assembler.Assembler.OneOperand | src/hlspl.ts:116-123 | the method performs the one-operand step, or returns its error |
| Assembler.Assembler.Simple | src/hlspl.ts:124-128 | the method performs the zero-operand step, or returns its error |
| Assembler.Assembler.Label | src/hlspl.ts:129-137 | the method performs the label step, or returns its error |
| Assembler.Assembler.EmitReturnAddress | src/hlspl.ts:103-108 | pushing the return address and swapping puts it before the previous last entry |
| Assembler.Assembler.EmitJump | src/hlspl.ts:109-113 | the target, `'='` and the pads are appended |
| Assembler.Assembler.Call | src/hlspl.ts:95-113 | the method performs the CALL step with the in-place swap, or returns its error |
| Assembler.Assembler.CallAfterLead | src/hlspl.ts:102-113 | after the lead opcode, the method pushes and swaps the return address, then the target, jump and padding, ending in the state of the CALL step or returning its error |
| Assembler.Assembler.AssembleLine | src/hlspl.ts:62-140 | one line changes the fields exactly as `Step` says, or returns its error |
| Assembler.Assembler.ListDefines | src/hlspl.ts:143-146 | the defines are one `#define name value` per symbol in insertion order |
| Assembler.HLSPL | src/hlspl.ts:55-148 | the loop over the lines returns exactly the assembled program or the first error |
| Listing.Lines | src/hlspl.ts:151 | one listing line per code entry |
| Listing.BlankLineIsBlankEntry | src/hlspl.ts:151-152 | a listing line is blank after trimming iff its entry is a blank marker |
| Listing.FormatSPLCode | src/hlspl.ts:150-165 | the `shift` loop and `unshift` produce exactly the listing |
| Listing.CodeHasText | src/hlspl.ts:152-154 | some line is not blank, so the `shift` loop stops |
| Listing.DropBlankKeepsCode | src/hlspl.ts:152-154 | only the leading blank markers are dropped; the listing keeps every entry from the first other one, comments included |
| Listing.TrimRepeat | src/hlspl.ts:156 | trimming `'0, '` repeated `n` times drops the final space only |
| Listing.ZeroRowShape | src/hlspl.ts:155-156 | the zero row is two spaces, `n - 1` times `0, `, then `0,` |
| Listing.ZeroRowSingle | src/hlspl.ts:156 | the zero row is one line |
| Listing.FrameJoin | src/hlspl.ts:159-164 | the template is the join of the defines, an empty line, the header, the body and the footer |
| Listing.FrameLines | src/hlspl.ts:159-164 | read line by line, the template gives back those lines |
| Listing.LinesSingle | src/hlspl.ts:151 | single-line entries give single-line listing lines |
| Listing.BodySingle | src/hlspl.ts:151-157 | the body is non-empty and has no embedded line breaks |
| Listing.ListingLines | src/hlspl.ts:150-165 | read line by line, the listing is the defines, an empty line, `uint8_t program[256] = {`, the body, `};` and the empty text after the final line break |
| ByteExtract.CharMatch | src/hlspl.ts:194-196 | the capture is that of the leftmost position from `i` where `'\\?(.)'` matches, and is a character `.` matches; there is none exactly when no position from `i` matches |
| ByteExtract.Decoded | src/hlspl.ts:175-199 | the `map` gives one outcome per code line |
| ByteExtract.SPLBytes | src/hlspl.ts:167-201 | the define loop and the `map`/`filter` compute exactly the extracted bytes or the first error |
| ByteExtract.CollectCount | src/hlspl.ts:200 | the `filter` keeps one value per decoded byte |
| ByteExtract.CollectSucceeds | src/hlspl.ts:175-200 | extraction succeeds iff every line decodes |
| ByteExtract.CollectErrorSticks | src/hlspl.ts:175-198 | once a prefix fails, the whole extraction fails with that error |
| ByteExtract.CollectFirstError | src/hlspl.ts:175-198 | the first failing line's error is the error of the extraction |
| ByteExtract.CollectAt | src/hlspl.ts:175-200 | each kept value sits at the count of values kept before it |
| ByteExtract.DecodedPrefix | src/hlspl.ts:175-199 | the `map` of a prefix is the prefix of the `map` |
| ByteExtract.KeptSlots | src/hlspl.ts:182-200 | when every line decodes, the values kept count the byte slots |
| ByteExtract.ByteOutcome | src/hlspl.ts:182-197 | a decoded line gives a value iff its bare text is not empty |
| ByteExtract.KeptMatches | src/hlspl.ts:201 | outcomes that all succeed, with a value exactly at the byte slots, keep as many values as there are slots |
| ByteExtract.ExtractedCount | src/hlspl.ts:175-200 | the result has as many values as the code has byte slots |
| ByteExtract.DecodeAllSucceeds | src/hlspl.ts:175-200 | `SPLBytes` succeeds iff every code line decodes |
| ByteExtract.FirstErrorWins | src/hlspl.ts:175-198 | the first line that fails decides the error |
| ByteExtract.CollectAppend | src/hlspl.ts:175-200 | over two runs of outcomes in turn, the first run's error if it has one, else the second's, else both runs' values in order |
| ByteExtract.DecodeAllAppend | src/hlspl.ts:175-200 | reading two pieces of code in turn gives the first piece's error, else the second's, else both pieces' bytes in order |
| ByteExtract.KeptPrefix | src/hlspl.ts:182-200 | the values kept from a prefix count the byte slots of that prefix |
| ByteExtract.ExtractedAt | src/hlspl.ts:175-200 | the value at a byte slot's position among the byte slots is what that slot decodes to |
| ByteExtract.MarkersDecodeToNothing | src/hlspl.ts:182-184 | blank and comment markers decode to `null` |
| ByteExtract.LiteralDecodes | src/hlspl.ts:188-189 | a numeral slot, not shadowed by a define, decodes to its value |
| ByteExtract.StopDecodes | src/hlspl.ts:115 | `STOP`'s `0xff` slot decodes to 255 |
| ByteExtract.PadDecodes | src/hlspl.ts:112 | a pad decodes to 0 |
| ByteExtract.OpCharDecodes | src/hlspl.ts:194-196 | an opcode slot decodes to its character code |
| ByteExtract.NoCharMatch | src/hlspl.ts:194 | with no quote, there is no character match |
| ByteExtract.LabelRefDecodes | src/hlspl.ts:185-198 | a label reference decodes to its truthy define, and otherwise fails with `Invalid C-SPL input: <line>` |
| ByteExtract.NamedDecodes | src/hlspl.ts:185-189 | a named constant decodes through a truthy define of its text, or else as a numeral |
| ByteExtract.DefineLineTrimmed | src/hlspl.ts:170 | a define line is already trimmed |
| ByteExtract.DefineLineJoined | src/hlspl.ts:145 | a define line is its three parts joined by spaces |
| ByteExtract.DefineLineParts | src/hlspl.ts:170 | splitting a define line on spaces gives `#define`, the name and the value |
| ByteExtract.AddDefineLine | src/hlspl.ts:169-173 | reading a define line binds its name to the parsed value |
| ByteExtract.DefinesReadBack | src/hlspl.ts:143-146 | reading the defines binds every symbol to its parsed text and leaves other names alone |
| ByteExtract.DefinesRoundTrip | src/hlspl.ts:169-174 | the map read from the defines has exactly the symbols as keys, each bound to its parsed value |
| ByteExtract.LabelRoundTrip | src/hlspl.ts:135 | a reference to a label at a positive address decodes, through the defines, to that address |
| AssembledBytes.ParseTokenized | src/hlspl.ts:64-75 | a parsed line is tokenized: trimmed, its words are words, and its branch is that of its mnemonic |
| AssembledBytes.LookupWord | src/hlspl.ts:42 | a symbol read from a space-free table is a single word |
| AssembledBytes.BindSpaceFree | src/hlspl.ts:80-135 | binding a space-free name to a word keeps the table space-free |
| AssembledBytes.NumberTextWord | src/hlspl.ts:80 | the text of a number, NaN included, is a single word |
| AssembledBytes.LabelNameFree | src/hlspl.ts:135 | the name `LABEL_<label>` of a word holds no space |
| AssembledBytes.ImmediateFilled | src/hlspl.ts:38-53 | a resolved operand has a non-empty bare text |
| AssembledBytes.PadsFilled | src/hlspl.ts:111-113 | every pad decodes to a byte |
| AssembledBytes.CallSequenceFilled | src/hlspl.ts:99-113 | the calling sequence pushes only entries that decode as their kind says, after the in-place swap |
| AssembledBytes.MarkerWellFormed | src/hlspl.ts:76-77 | a marker line keeps the code filled, since its comment has text |
| AssembledBytes.ConstWellFormed | src/hlspl.ts:81-89 | `CONST` keeps the table space-free |
| AssembledBytes.LabelWellFormed | src/hlspl.ts:129-137 | a label keeps the table space-free and pushes a comment with text |
| AssembledBytes.StepWellFormed | src/hlspl.ts:62-140 | every line keeps the code filled and the table space-free |
| AssembledBytes.RunWellFormed | src/hlspl.ts:61-141 | so does the whole run over tokenized lines |
| AssembledBytes.AssembledWellFormed | src/hlspl.ts:55-148 | a program `HLSPL` returns has filled code, a space-free table with distinct names and an `offset` equal to its byte slots and to the lines' total width |
| AssembledBytes.AssembledByteCount | src/hlspl.ts:55-201 | in the `BareText` reading of code lines, the bytes `SPLBytes` reads from a program `HLSPL` returns are as many as the final `offset`, and each byte slot gives the byte at its rank |
| AssembledBytes.AssembledDefines | src/hlspl.ts:143-174 | the defines of a program `HLSPL` returns read back as exactly its symbols, each bound to the number its text parses to |
| Examples.Push22 | src/hlspl.spec.ts:5-7 | `PUSH 22` assembles to the single slot `22,` with no defines |
| Examples.Push64 | src/hlspl.spec.ts:9-11 | `PUSH 64` fails with `Line 1: PUSH reserved value: 64` |
| Examples.PushBare | src/hlspl.spec.ts:13-15 | `PUSH` fails with `Line 1: Invalid number of arguments to PUSH` |
| Examples.Add10 | src/hlspl.spec.ts:17-19 | `ADD 10` assembles to the slots `10,` and `'+',` |
| Examples.Xchg | src/hlspl.spec.ts:21-23 | `XCHG` assembles to the slot `'x',` |
| Examples.ExampleTexts | src/hlspl.spec.ts:5-23 | those slots render as the expected strings |
| Examples.ConstSubstitution | src/hlspl.spec.ts:25-31 | `CONST ADDR_PIN 0x36` then `PUSH ADDR_PIN` gives one named slot and the define `#define ADDR_PIN 0x36` |
| Examples.PinSlotText | src/hlspl.spec.ts:30 | the slot renders as `0x36 /* ADDR_PIN */,` |
| Examples.PinBytes | src/hlspl.ts:167-201 | that program's bytes are `[0x36]` |
| Integration.ShapedDefines | src/hlspl.ts:167-174 | the defines of a table with distinct space-free names, exactly the six of the test, read back as a map whose names all start with a capital letter (so no numeral or quoted character is shadowed) and which binds the two labels to 3 and 11 |
| Integration.IntegrationMap | src/hlspl.spec.ts:36-64 | the test's symbol table is such a table |
| Integration.DecodedAs | src/hlspl.ts:175-200 | code whose every line decodes to a known outcome reads as the values those outcomes keep |
| Integration.ReadBlock | src/hlspl.ts:175-200 | the same for a block of at most nine lines, line by line |
| IntegrationSlots.ReadCode | src/hlspl.spec.ts:68-72 | under such defines, the integration test's code reads as the 28 expected bytes |
| IntegrationSlots.IntegrationTestBytes | src/hlspl.spec.ts:67-72 | `SPLBytes` of the integration test's program record gives exactly `[127, 58, 119, 0, 129, …, 64, 3, 61]` |

## Left out

- **Parsing numbers.**
  - JavaScript's `parseInt` leniency is not modelled: prefix parsing (`12abc` is 12), signs, and leading white space.
  - The parser is strict: a whole decimal or `0x` numeral, else NaN. So negative operands, which the source lets through its `< 256` check, are NaN here.
  - A NaN padding argument runs the padding loop zero times here too, as `PadCount`.
- **Floating point.** Origins and offsets are natural numbers or NaN. `toString` of other numbers is not modelled.
- **Characters.**
  - `toUpperCase` is modelled for ASCII letters only.
  - Characters here are Unicode scalar values. A character outside the basic plane is one character here but two UTF-16 code units in JavaScript, so `charCodeAt`, `length` and `.` on such characters are not modelled.
- **Objects used as dictionaries.**
  - Names that collide with `Object.prototype` members (`symbols['constructor']` and similar) are not modelled.
  - `Object.entries` lists integer-like keys first. Here the defines list keys in insertion order.
- **Line terminators.** Only `\n` splits lines, so a line may hold `\r`, U+2028 or U+2029. `trim` strips them at the ends like other white space. Inside a line the model follows the regular expressions' `.`, which does not match them (`LineSyntax.TerminatorStopsCut`, `LineSyntax.TerminatorKeepsComment`).
- **White space.** `Strings.Words` gives no words for an all-blank code part, where `''.split(/\s+/)` gives `['']`. Both make the mnemonic empty.
- **Regular expressions** are not modelled as such: `BareText` states what they do to the rendered entries.
  - It relies on values and comments holding no `//`, `/*`, `*/` or line terminator of their own.
  - A value inside a comment like `/* a */ b */` is such a case.
- **Leading `CALL1`.** A `CALL1` whose return address would be the very first code entry is excluded by the precondition `NoLeadingCall1`. The source would swap with `code[-1]`.
- **All-blank listing.** `formatSPLCode` on code of blank entries only is excluded by `HasCode`. The source reads `lines[0]` of an empty array.
- **The other source files.**
  - src/main.ts is not part of this model: the command line, file input and output, console output, the process exit status, and the `hex` and `bytes` output formats.
  - src/hlspl.spec.ts is the test harness.
- IntegrationSlots.IntegrationTestBytes: the program record of the integration test is written out as the assembler leaves it, not obtained by evaluating `HLSPL` on the test's source, because evaluating the parsing of its 30-odd lines is beyond what the verifier does quickly. The listing the test expects from `formatSPLCode` is not stated.
- AssembledBytes.AssembledByteCount: proved for the `BareText` reading of code lines, which treats every comment as removed by `\/\/.+$`. The assembler can push a comment holding a line terminator, and there `.+$` does not reach the end, so the source keeps the comment in the bare text.
  - `PUSH 5\r;c` pushes the slot `5,       // PUSH 5\rc`. The source's `SPLBytes` throws `Invalid C-SPL input` on it, where the model reads 5.
  - `:L\r'a'` pushes the marker `// :L\r'a'`. The source reads the byte 97 from its quoted character, where the model reads nothing.
  - `AssembledBytes.AssembledWellFormed`'s `FilledSlots` is stated in the same reading.
- ByteExtract.ExtractedCount: stated for code in which no slot or marker has a comment made of white space only (`FilledSlots`). Such a line would keep a `//` in its bare text. Assembled code meets it in the `BareText` reading (`AssembledBytes.AssembledWellFormed`), and `AssembledBytes.AssembledByteCount` states the count for every assembled program in that reading.
- ByteExtract.KeptSlots, ByteExtract.KeptPrefix, ByteExtract.ExtractedAt: stated under the same `FilledSlots` condition, which `AssembledBytes.AssembledWellFormed` proves for assembled code.
- ByteExtract.DefinesRoundTrip: stated for tables whose names hold no space and whose values are single words (`SpaceFree`). `AssembledBytes.AssembledWellFormed` proves this for every assembled table, and `AssembledBytes.AssembledDefines` states the round trip for it.
