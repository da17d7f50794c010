/** `immediate`: how an operand token becomes the text of one byte slot. */
module Immediates {
  import opened Results
  import opened Numerals
  import opened Opcodes
  import opened Symbols
  import opened CodeLines
  import opened Errors

  predicate IsLabelRef(token: string) {
    |token| > 0 && token[0] == '@'
  }

  /** A numeral whose value is a byte that is not the code of a reserved opcode character. */
  predicate IsSafeByte(token: string) {
    var x := ParseNumeral(token);
    x.Int? && x.n < 256 && !IsReservedCode(x.n)
  }

  /**
    Resolves an operand: `@name` becomes the placeholder `LABEL_name`, a bound name its text
    annotated with the name, and anything else must be a safe byte numeral, kept verbatim.
   */
  function Immediate(token: string, symbols: Table): (r: Result<Value, ErrorKind>)
    ensures r.Ok? && r.value.Literal? ==> r.value.text == token && IsSafeByte(token)
    ensures r.Ok? ==> r.value.LabelRef? || r.value.Named? || r.value.Literal?
    ensures r.Err? ==> r.error == InvalidInt(token) || r.error == ReservedValue(token)
  {
    if IsLabelRef(token) then Ok(LabelRef(token[1..]))
    else if Lookup(symbols, token).Some? then Ok(Named(Lookup(symbols, token).value, token))
    else
      var x := ParseNumeral(token);
      if x.NaN? || x.n >= 256 then Err(InvalidInt(token))
      else if IsReservedCode(x.n) then Err(ReservedValue(token))
      else Ok(Literal(token))
  }

  /** The exact text `immediate` returns in each of its three accepting cases. */
  lemma ImmediateText(token: string, symbols: Table)
    requires Immediate(token, symbols).Ok?
    ensures var text := ValueText(Immediate(token, symbols).value);
      && (IsLabelRef(token) ==> text == "LABEL_" + token[1..])
      && (!IsLabelRef(token) && Lookup(symbols, token).Some? ==>
            text == Lookup(symbols, token).value + " /* " + token + " */")
      && (!IsLabelRef(token) && Lookup(symbols, token).None? ==> text == token)
  {
  }

  /**
    A token that is neither a label reference nor a bound name is accepted exactly when it is a
    safe byte; it fails with `Invalid int value` when it is no numeral or at least 256, and with
    `PUSH reserved value` when it is the code of a reserved opcode character.
   */
  lemma ImmediateRejects(token: string, symbols: Table)
    requires !IsLabelRef(token) && Lookup(symbols, token).None?
    ensures Immediate(token, symbols).Ok? <==> IsSafeByte(token)
    ensures Immediate(token, symbols) == Err(InvalidInt(token)) <==>
      (ParseNumeral(token).NaN? || ParseNumeral(token).n >= 256)
    ensures Immediate(token, symbols) == Err(ReservedValue(token)) <==>
      (ParseNumeral(token).Int? && ParseNumeral(token).n < 256 && IsReservedCode(ParseNumeral(token).n))
  {
  }
}
