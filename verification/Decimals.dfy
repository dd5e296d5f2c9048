/** Decimal numerals: how `Display` prints unsigned numbers and how the standard library's address parser reads them. */
module Decimals {
  import opened Options

  predicate IsDigit(c: char) {
    '0' <= c <= '9'
  }

  function Digit(d: nat): char
    requires d < 10
  {
    '0' + d as char
  }

  function DigitValue(c: char): nat
    requires IsDigit(c)
  {
    c as nat - '0' as nat
  }

  predicate AllDigits(s: string) {
    forall i | 0 <= i < |s| :: IsDigit(s[i])
  }

  function Print(n: nat): string {
    if n < 10 then [Digit(n)] else Print(n / 10) + [Digit(n % 10)]
  }

  function Value(s: string): nat
    requires AllDigits(s)
  {
    if s == [] then 0 else 10 * Value(s[..|s| - 1]) + DigitValue(s[|s| - 1])
  }

  lemma {:induction false} ValueOfPrint(n: nat)
    ensures AllDigits(Print(n)) && Value(Print(n)) == n
    ensures |Print(n)| >= 1 && (n > 0 ==> Print(n)[0] != '0')
  {
    if n >= 10 {
      ValueOfPrint(n / 10);
      assert Print(n)[..|Print(n)| - 1] == Print(n / 10);
    } else {
      assert Print(n)[..0] == [];
    }
  }

  /** The last digit is the remainder by ten, the digits before it are the quotient's. */
  lemma LastDigit(n: nat)
    ensures var s := Print(n);
            && s != [] && s[|s| - 1] == "0123456789"[n % 10]
            && s[..|s| - 1] == if n < 10 then [] else Print(n / 10)
  {
    DigitText(n % 10);
    if n >= 10 { assert (Print(n / 10) + [Digit(n % 10)])[..|Print(n / 10)|] == Print(n / 10); }
  }

  lemma DigitText(d: nat)
    requires d < 10
    ensures Digit(d) == "0123456789"[d]
  {
  }

  lemma PrintLength(n: nat)
    requires n < 1000
    ensures |Print(n)| <= 3
  {
    if n >= 100 {
      assert |Print(n / 10)| == |Print(n / 10 / 10)| + 1;
    }
  }

  /** A numeral without a superfluous leading zero is the printed form of its value. */
  lemma {:induction false} PrintOfValue(s: string)
    requires AllDigits(s) && s != [] && (s[0] == '0' ==> |s| == 1)
    ensures Print(Value(s)) == s
  {
    var init := s[..|s| - 1];
    if init == [] {
      assert s == [s[0]];
      assert Value(s) == DigitValue(s[0]);
    } else {
      PrintOfValue(init);
      assert Print(0) == ['0'];
      assert Value(s) / 10 == Value(init) && Value(s) % 10 == DigitValue(s[|s| - 1]);
      assert s == init + [s[|s| - 1]];
    }
  }

  /** The digits at the front of s. */
  function Leading(s: string): string {
    if s == [] || !IsDigit(s[0]) then [] else [s[0]] + Leading(s[1..])
  }

  lemma {:induction false} LeadingIsPrefix(s: string)
    ensures |Leading(s)| <= |s| && s[..|Leading(s)|] == Leading(s) && AllDigits(Leading(s))
  {
    if s != [] && IsDigit(s[0]) {
      LeadingIsPrefix(s[1..]);
      assert s[..|Leading(s)|] == [s[0]] + s[1..][..|Leading(s)| - 1];
    }
  }

  lemma {:induction false} LeadingOfConcat(d: string, rest: string)
    requires AllDigits(d) && (rest == [] || !IsDigit(rest[0]))
    ensures Leading(d + rest) == d
  {
    if d == [] {
      assert d + rest == rest;
    } else {
      LeadingOfConcat(d[1..], rest);
      assert (d + rest)[1..] == d[1..] + rest;
    }
  }

  /**
   * The parser's number reader: takes all digits, then refuses an empty numeral, too many digits, a value
   * over the limit and, unless allowed, a leading zero.
   */
  function Read(s: string, limit: nat, maxDigits: Option<nat>, zeroPrefix: bool): Option<(nat, string)> {
    LeadingIsPrefix(s);
    var d := Leading(s);
    if d == [] || (maxDigits.Some? && |d| > maxDigits.value) then None
    else if Value(d) > limit then None
    else if d[0] == '0' && |d| > 1 && !zeroPrefix then None
    else Some((Value(d), s[|d|..]))
  }

  lemma ReadPrinted(n: nat, rest: string, limit: nat, maxDigits: Option<nat>, zeroPrefix: bool)
    requires n <= limit && (rest == [] || !IsDigit(rest[0]))
    requires maxDigits.Some? ==> |Print(n)| <= maxDigits.value
    ensures Read(Print(n) + rest, limit, maxDigits, zeroPrefix) == Some((n, rest))
  {
    ValueOfPrint(n);
    LeadingOfConcat(Print(n), rest);
    assert (Print(n) + rest)[|Print(n)|..] == rest;
    if n == 0 { assert Print(0) == ['0']; }
  }

  /** What the reader accepted is a numeral of the result, the printed one when leading zeros are refused. */
  lemma ReadSound(s: string, limit: nat, maxDigits: Option<nat>, zeroPrefix: bool)
    requires Read(s, limit, maxDigits, zeroPrefix).Some?
    ensures var (n, rest) := Read(s, limit, maxDigits, zeroPrefix).value;
            && n <= limit && AllDigits(Leading(s)) && Value(Leading(s)) == n && s == Leading(s) + rest
            && (!zeroPrefix ==> s == Print(n) + rest)
  {
    LeadingIsPrefix(s);
    if !zeroPrefix { PrintOfValue(Leading(s)); }
  }
}
