/**
  Numbers as the assembler handles them. JavaScript's `parseInt` is modelled strictly: a whole
  decimal numeral, or a whole `0x`/`0X` hexadecimal numeral, has its value, and everything else is
  NaN. Numbers are never negative here, because no strict numeral denotes a negative value.
 */
module Numerals {

  /** A JavaScript number as it arises in the assembler: a non-negative integer, or NaN. */
  datatype Number = Int(n: nat) | NaN

  predicate IsDigit(c: char) {
    '0' <= c <= '9'
  }

  predicate IsHexDigit(c: char) {
    IsDigit(c) || 'a' <= c <= 'f' || 'A' <= c <= 'F'
  }

  predicate IsBit(c: char) {
    c == '0' || c == '1'
  }

  function DigitValue(c: char): (d: nat)
    requires IsHexDigit(c)
    ensures d < 16
    ensures IsDigit(c) ==> d < 10
    ensures IsBit(c) ==> d < 2
  {
    if IsDigit(c) then c as int - '0' as int
    else if 'a' <= c <= 'f' then c as int - 'a' as int + 10
    else c as int - 'A' as int + 10
  }

  predicate AllDigits(s: string) {
    forall i | 0 <= i < |s| :: IsDigit(s[i])
  }

  predicate AllHexDigits(s: string) {
    forall i | 0 <= i < |s| :: IsHexDigit(s[i])
  }

  predicate AllBits(s: string) {
    forall i | 0 <= i < |s| :: IsBit(s[i])
  }

  /** The value of the digit string `s` in `base`, most significant digit first. */
  function ValueIn(s: string, base: nat): nat
    requires AllHexDigits(s)
  {
    if s == [] then 0 else ValueIn(s[..|s| - 1], base) * base + DigitValue(s[|s| - 1])
  }

  predicate IsDecimalLiteral(s: string) {
    s != [] && AllDigits(s)
  }

  predicate IsHexLiteral(s: string) {
    |s| > 2 && s[0] == '0' && (s[1] == 'x' || s[1] == 'X') && AllHexDigits(s[2..])
  }

  predicate IsBinaryLiteral(s: string) {
    |s| > 2 && s[0] == '0' && (s[1] == 'b' || s[1] == 'B') && AllBits(s[2..])
  }

  /** The numerals the assembler reads: `0x` hexadecimal or decimal, letters in either case. */
  predicate IsNumeral(s: string) {
    IsHexLiteral(s) || IsDecimalLiteral(s)
  }

  /** `parseInt(s, 10)`, strictly: a whole decimal numeral, else NaN. */
  function ParseDecimal(s: string): (r: Number)
    ensures r.Int? <==> IsDecimalLiteral(s)
  {
    if IsDecimalLiteral(s) then Int(ValueIn(s, 10)) else NaN
  }

  /** `parseInt(s)`, strictly: a whole `0x` hexadecimal or decimal numeral, else NaN. */
  function ParseNumeral(s: string): (r: Number)
    ensures r.Int? <==> IsNumeral(s)
  {
    if IsHexLiteral(s) then Int(ValueIn(s[2..], 16)) else ParseDecimal(s)
  }

  /** `parseInt(s.substring(2), 2)` on a `0b` literal. */
  function ParseBinary(s: string): nat
    requires IsBinaryLiteral(s)
  {
    ValueIn(s[2..], 2)
  }

  function DigitChar(d: nat): (c: char)
    requires d < 10
    ensures IsDigit(c) && DigitValue(c) == d
  {
    (d + '0' as int) as char
  }

  /** The decimal text of `n`, as `Number.prototype.toString` writes it. */
  function NatToString(n: nat): (s: string)
    ensures IsDecimalLiteral(s)
  {
    if n < 10 then [DigitChar(n)] else NatToString(n / 10) + [DigitChar(n % 10)]
  }

  /** `Number.prototype.toString`. */
  function NumberText(x: Number): string {
    match x
    case Int(n) => NatToString(n)
    case NaN => "NaN"
  }

  /** JavaScript `+` on numbers: NaN absorbs. */
  function Add(x: Number, y: Number): (r: Number)
    ensures r.Int? <==> x.Int? && y.Int?
    ensures r.Int? ==> r.n == x.n + y.n
  {
    if x.Int? && y.Int? then Int(x.n + y.n) else NaN
  }

  /** The UTF-16 code unit `String.fromCharCode(x)` produces: `x` modulo 2^16, and 0 for NaN. */
  function CharCode(x: Number): (k: nat)
    ensures k < 0x1_0000
    ensures x.Int? && x.n < 0x1_0000 ==> k == x.n
  {
    match x
    case Int(n) => n % 0x1_0000
    case NaN => 0
  }

  /** Reading back the decimal text of a number gives the number: the parser inverts `toString`. */
  lemma {:induction false} ParseDecimalOfNatToString(n: nat)
    ensures ParseDecimal(NatToString(n)) == Int(n)
  {
    var s := NatToString(n);
    if n < 10 {
      assert s[..0] == [];
    } else {
      var t := NatToString(n / 10);
      ParseDecimalOfNatToString(n / 10);
      assert s[..|s| - 1] == t;
      assert ValueIn(s, 10) == ValueIn(t, 10) * 10 + n % 10;
    }
  }

  lemma ParseNumeralOfNatToString(n: nat)
    ensures ParseNumeral(NatToString(n)) == Int(n)
  {
    ParseDecimalOfNatToString(n);
    var s := NatToString(n);
    assert !IsHexLiteral(s) by {
      if |s| > 2 {
        assert IsDigit(s[1]);
      }
    }
  }

  /** Reading back the text of any number, NaN included, gives the number. */
  lemma ParseDecimalOfNumberText(x: Number)
    ensures ParseDecimal(NumberText(x)) == x
  {
    if x.Int? {
      ParseDecimalOfNatToString(x.n);
    } else {
      assert !IsDigit("NaN"[0]);
    }
  }

  /** `toString` on numbers is injective: different numbers have different texts. */
  lemma NumberTextInjective(x: Number, y: Number)
    requires NumberText(x) == NumberText(y)
    ensures x == y
  {
    ParseDecimalOfNumberText(x);
    ParseDecimalOfNumberText(y);
  }
}
