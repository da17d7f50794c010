/**
  The static instruction tables of the assembler: the one-operand instructions, the
  zero-operand instructions and the string of reserved opcode characters that immediate
  values and label addresses must avoid.
 */
module Opcodes {
  import opened Results

  /** The instructions that take one optional immediate operand, with their opcode characters. */
  function OneOperandCode(cmd: string): Option<char> {
    if cmd == "ADD" then Some('+')
    else if cmd == "SUB" then Some('-')
    else if cmd == "XOR" then Some('^')
    else if cmd == "OR" then Some('|')
    else if cmd == "AND" then Some('&')
    else if cmd == "DELAY" then Some(',')
    else if cmd == "JMP" then Some('=')
    else if cmd == "LOOP" then Some('@')
    else if cmd == "READ" then Some('r')
    else if cmd == "WRITE" then Some('w')
    else if cmd == "EREAD" then Some('?')
    else if cmd == "EWRITE" then Some('!')
    else None
  }

  /** The instructions that take no operand, with their opcode characters. */
  function SimpleCode(cmd: string): Option<char> {
    if cmd == "SHL" then Some('<')
    else if cmd == "SHR" then Some('>')
    else if cmd == "DUP" then Some('2')
    else if cmd == "XCHG" then Some('x')
    else if cmd == "SLEEP" then Some('z')
    else None
  }

  const OneOperandMnemonics: seq<string> :=
    ["ADD", "SUB", "XOR", "OR", "AND", "DELAY", "JMP", "LOOP", "READ", "WRITE", "EREAD", "EWRITE"]

  const SimpleMnemonics: seq<string> := ["SHL", "SHR", "DUP", "XCHG", "SLEEP"]

  /** The reserved opcode characters: 17 of them. */
  const OpCodeChars: string := ",><=@&|^+-2?!rwxz"

  /** The first index at or after `i` whose character has code `k` (or `|s|`). */
  function FindCode(s: string, k: int, i: nat): (j: nat)
    requires i <= |s|
    ensures i <= j <= |s|
    ensures j < |s| ==> s[j] as int == k
    ensures forall m | i <= m < j :: s[m] as int != k
    decreases |s| - i
  {
    if i < |s| && s[i] as int != k then FindCode(s, k, i + 1) else i
  }

  /** `opCodes.includes(String.fromCharCode(k))` for a code unit `k`. */
  predicate IsReservedCode(k: int) {
    FindCode(OpCodeChars, k, 0) < |OpCodeChars|
  }

  lemma ReservedCodeMeaning(k: int)
    ensures IsReservedCode(k) <==> exists i | 0 <= i < |OpCodeChars| :: OpCodeChars[i] as int == k
  {
  }

  lemma ReservedChar(c: char)
    requires c in OpCodeChars
    ensures IsReservedCode(c as int)
  {
    var i :| 0 <= i < |OpCodeChars| && OpCodeChars[i] == c;
    assert FindCode(OpCodeChars, c as int, 0) <= i;
  }

  /** The tables list exactly the mnemonics above. */
  lemma TablesListMnemonics(cmd: string)
    ensures OneOperandCode(cmd).Some? <==> cmd in OneOperandMnemonics
    ensures SimpleCode(cmd).Some? <==> cmd in SimpleMnemonics
    ensures !(OneOperandCode(cmd).Some? && SimpleCode(cmd).Some?)
  {
  }

  /** Every opcode character of the two instruction tables is reserved. */
  lemma OpcodesAreReserved(cmd: string)
    ensures OneOperandCode(cmd).Some? ==> IsReservedCode(OneOperandCode(cmd).value as int)
    ensures SimpleCode(cmd).Some? ==> IsReservedCode(SimpleCode(cmd).value as int)
  {
    if OneOperandCode(cmd).Some? {
      ReservedChar(OneOperandCode(cmd).value);
    }
    if SimpleCode(cmd).Some? {
      ReservedChar(SimpleCode(cmd).value);
    }
  }

  /** The instruction whose opcode is the `i`-th reserved character. */
  function ReservedOwner(i: nat): string
    requires i < |OpCodeChars|
  {
    ["DELAY", "SHR", "SHL", "JMP", "LOOP", "AND", "OR", "XOR", "ADD", "SUB", "DUP", "EREAD", "EWRITE", "READ", "WRITE", "XCHG", "SLEEP"][i]
  }

  /** Every reserved character is the opcode of some instruction of the two tables. */
  lemma ReservedAreOpcodes(i: nat)
    requires i < |OpCodeChars|
    ensures OneOperandCode(ReservedOwner(i)) == Some(OpCodeChars[i]) || SimpleCode(ReservedOwner(i)) == Some(OpCodeChars[i])
  {
  }
}
