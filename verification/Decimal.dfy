/** Decimal printing (`std::to_string`) and parsing (`atoi`), which carry every
    counter through the store as text and every host number into an address. */
module Decimal {

  const DIGITS := "0123456789"

  predicate IsDigit(c: char) {
    '0' <= c <= '9'
  }

  predicate IsSpace(c: char) {
    c == ' ' || '\t' <= c <= '\r'
  }

  predicate AllDigits(s: string) {
    forall i :: 0 <= i < |s| ==> IsDigit(s[i])
  }

  function Print(n: nat): (s: string)
    ensures |s| > 0 && AllDigits(s)
  {
    if n < 10 then [DIGITS[n]] else Print(n / 10) + [DIGITS[n % 10]]
  }

  function PrintInt(n: int): string {
    if n < 0 then "-" + Print(-n) else Print(n)
  }

  /** The number a string of digits denotes. */
  function Number(s: string): nat
    requires AllDigits(s)
  {
    if s == [] then 0 else 10 * Number(s[..|s| - 1]) + (s[|s| - 1] as int - '0' as int)
  }

  function LeadingDigits(s: string): (d: string)
    ensures AllDigits(d)
  {
    if s == [] || !IsDigit(s[0]) then "" else [s[0]] + LeadingDigits(s[1..])
  }

  /** C's `atoi`: leading white space, an optional sign, then the longest run of
      digits; text with no number in it counts as 0. */
  function Atoi(s: string): int {
    if s == [] then 0
    else if IsSpace(s[0]) then Atoi(s[1..])
    else if s[0] == '-' then 0 - Number(LeadingDigits(s[1..]))
    else if s[0] == '+' then Number(LeadingDigits(s[1..]))
    else Number(LeadingDigits(s))
  }

  lemma {:induction false} PrintedNumber(n: nat)
    ensures Number(Print(n)) == n
  {
    if n >= 10 {
      PrintedNumber(n / 10);
      assert Print(n)[..|Print(n)| - 1] == Print(n / 10);
    }
  }

  lemma {:induction false} LeadingDigitsOfDigits(s: string)
    requires AllDigits(s)
    ensures LeadingDigits(s) == s
  {
    if s != [] {
      LeadingDigitsOfDigits(s[1..]);
    }
  }

  /** Parsing a printed counter gives the counter back, whatever its sign. */
  lemma AtoiOfPrinted(n: int)
    ensures Atoi(PrintInt(n)) == n
  {
    var digits := Print(if n < 0 then -n else n);
    PrintedNumber(if n < 0 then -n else n);
    LeadingDigitsOfDigits(digits);
    if n < 0 {
      assert PrintInt(n)[1..] == digits;
    } else {
      assert IsDigit(digits[0]);
    }
  }

  /** The digits of a number as they are written: at least one, and no 0 in front. */
  predicate Canonical(s: string) {
    s != "" && AllDigits(s) && (1 < |s| ==> s[0] != '0')
  }

  lemma {:induction false} PrintIsCanonical(n: nat)
    ensures Canonical(Print(n))
  {
    if n >= 10 {
      PrintIsCanonical(n / 10);
      if n / 10 < 10 {
        assert Print(n / 10) == [DIGITS[n / 10]];
      }
    }
  }

  lemma {:induction false} NumberBelow(s: string)
    requires Canonical(s)
    ensures |s| == 1 <==> Number(s) < 10
    ensures s[0] == '0' <==> Number(s) == 0
  {
    if 1 < |s| {
      NumberBelow(s[..|s| - 1]);
    }
  }

  /** Printing is the only way to write a number: whatever digits without a 0 in front
      denote it are the ones printed. */
  lemma {:induction false} PrintOfNumber(s: string)
    requires Canonical(s)
    ensures Print(Number(s)) == s
  {
    var (init, d) := (s[..|s| - 1], s[|s| - 1] as int - '0' as int);
    DigitPrints(s[|s| - 1]);
    NumberBelow(s);
    if 1 < |s| {
      PrintOfNumber(init);
      PrintOneMore(Number(init), d);
      assert s == init + [DIGITS[d]];
    } else {
      assert s == [DIGITS[d]] && Number(init) == 0;
    }
  }

  lemma DigitPrints(c: char)
    requires IsDigit(c)
    ensures var d := c as int - '0' as int; 0 <= d < 10 && DIGITS[d] == c && Print(d) == [c]
  {
  }

  lemma PrintOneMore(m: nat, d: nat)
    requires d < 10 && 10 <= 10 * m + d
    ensures Print(10 * m + d) == Print(m) + [DIGITS[d]]
  {
    assert (10 * m + d) / 10 == m && (10 * m + d) % 10 == d;
  }

  /** A digit denotes itself, and one more digit makes ten times as much. */
  lemma NumberMeaning(s: string, d: nat)
    requires AllDigits(s) && d < 10
    ensures Number(s + ["0123456789"[d]]) == 10 * Number(s) + d
    ensures Number("") == 0
  {
    var c := "0123456789"[d];
    assert (s + [c])[..|s|] == s;
  }

  lemma {:induction false} LeadingDigitsStop(digits: string, rest: string)
    requires AllDigits(digits) && (rest != "" ==> !IsDigit(rest[0]))
    ensures LeadingDigits(digits + rest) == digits
  {
    if digits == "" {
      assert digits + rest == rest;
    } else {
      assert (digits + rest)[1..] == digits[1..] + rest;
      LeadingDigitsStop(digits[1..], rest);
    }
  }

  /** White space in front is passed over, a sign is heeded, and the number ends where the
      digits end. */
  lemma {:induction false} AtoiMeaning(spaces: string, sign: string, digits: string, rest: string)
    requires forall i :: 0 <= i < |spaces| ==>
               spaces[i] in " \t\n\r" || spaces[i] as int == 11 || spaces[i] as int == 12
    requires sign in ["", "+", "-"] && AllDigits(digits) && (rest != "" ==> !IsDigit(rest[0]))
    requires sign == "" ==> digits != ""
    ensures Atoi(spaces + sign + digits + rest) == if sign == "-" then 0 - Number(digits) else Number(digits)
    ensures Atoi("") == 0
  {
    var text := spaces + sign + digits + rest;
    LeadingDigitsStop(digits, rest);
    if spaces != "" {
      assert text[1..] == spaces[1..] + sign + digits + rest;
      AtoiMeaning(spaces[1..], sign, digits, rest);
    } else if sign != "" {
      assert text[1..] == digits + rest;
    } else {
      assert text == digits + rest && IsDigit(text[0]);
    }
  }

  lemma PrintInjective(m: nat, n: nat)
    requires Print(m) == Print(n)
    ensures m == n
  {
    PrintedNumber(m);
    PrintedNumber(n);
  }
}
