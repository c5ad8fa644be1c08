/** The ids of events: numbers printed as "%x" and read as `int(_, 16)`. */
module Hex {

  function Digit(d: nat): char
    requires d < 16
  {
    "0123456789abcdef"[d]
  }

  function Hexadecimal(n: nat): (s: string)
    ensures s != []
  {
    if n < 16 then [Digit(n)] else Hexadecimal(n / 16) + [Digit(n % 16)]
  }

  function DigitValue(c: char): int {
    if '0' <= c <= '9' then c as int - '0' as int
    else if 'a' <= c <= 'f' then c as int - 'a' as int + 10
    else if 'A' <= c <= 'F' then c as int - 'A' as int + 10
    else -1
  }

  predicate Digits(s: string) { forall i | 0 <= i < |s| :: DigitValue(s[i]) >= 0 }

  function Value(s: string): nat
    requires Digits(s)
  {
    if s == [] then 0 else 16 * Value(s[..|s| - 1]) + DigitValue(s[|s| - 1])
  }

  /** `re.match("^[0-9A-Fa-f]+$", s)`: the dollar also matches before a final line feed. */
  function Trimmed(s: string): string {
    if s != [] && s[|s| - 1] == '\n' then s[..|s| - 1] else s
  }

  predicate IsId(s: string) { Trimmed(s) != [] && Digits(Trimmed(s)) }

  function Key(s: string): nat
    requires IsId(s)
  {
    Value(Trimmed(s))
  }

  lemma DigitIsReadBack(d: nat)
    requires d < 16
    ensures DigitValue(Digit(d)) == d && Digit(d) != '\n'
  {
  }

  /** The digits are those of either case, and no other character is one. */
  lemma DigitsAre(c: char)
    ensures forall d: nat | d < 16 :: "0123456789abcdef"[d] == c || "0123456789ABCDEF"[d] == c ==> DigitValue(c) == d
    ensures 0 <= DigitValue(c) ==> DigitValue(c) < 16
    ensures 0 <= DigitValue(c) ==> c in ["0123456789abcdef"[DigitValue(c)], "0123456789ABCDEF"[DigitValue(c)]]
  {
  }

  lemma {:induction false} HexadecimalIsReadBack(n: nat)
    ensures Digits(Hexadecimal(n)) && Value(Hexadecimal(n)) == n && '\n' !in Hexadecimal(n)
  {
    if n < 16 {
      DigitIsReadBack(n);
      assert Hexadecimal(n)[..0] == [];
    } else {
      HexadecimalIsReadBack(n / 16);
      DigitIsReadBack(n % 16);
      var s := Hexadecimal(n);
      assert s[..|s| - 1] == Hexadecimal(n / 16);
    }
  }

  /** An id is one or more digits, and perhaps a line feed after them. */
  lemma IdsAre(s: string)
    ensures IsId(s) <==> exists digits :: digits != [] && Digits(digits) && (s == digits || s == digits + ['\n'])
    ensures forall digits: string | Digits(digits) && digits != [] && s in {digits, digits + ['\n']} :: IsId(s) && Key(s) == Value(digits)
  {
    if IsId(s) { assert s == Trimmed(s) || s == Trimmed(s) + ['\n']; }
    forall digits: string | Digits(digits) && digits != [] && s in {digits, digits + ['\n']} ensures Trimmed(s) == digits {
      assert DigitValue(digits[|digits| - 1]) >= 0;
    }
  }

  /** A client that sends back the id it got names exactly that message. */
  lemma IdIsReadBack(n: nat)
    ensures IsId(Hexadecimal(n)) && Key(Hexadecimal(n)) == n
  {
    HexadecimalIsReadBack(n);
    assert Trimmed(Hexadecimal(n)) == Hexadecimal(n);
  }
}
