/** Printing counters in decimal, as object paths need it. */
module Decimals {

  function Digit(d: nat): char
    requires d < 10
  {
    "0123456789"[d]
  }

  function Decimal(n: nat): string {
    if n < 10 then [Digit(n)] else Decimal(n / 10) + [Digit(n % 10)]
  }

  function DigitValue(c: char): nat {
    if '0' <= c <= '9' then (c - '0') as nat else 0
  }

  function ReadDecimal(s: string): nat {
    if s == "" then 0 else 10 * ReadDecimal(s[..|s| - 1]) + DigitValue(s[|s| - 1])
  }

  lemma DigitRead(d: nat)
    requires d < 10
    ensures DigitValue(Digit(d)) == d
  {
  }

  lemma {:induction false} ReadPrinted(n: nat)
    ensures ReadDecimal(Decimal(n)) == n
  {
    var s := Decimal(n);
    DigitRead(n % 10);
    if n < 10 {
      assert s[..0] == "";
    } else {
      ReadPrinted(n / 10);
      assert s[..|s| - 1] == Decimal(n / 10) && s[|s| - 1] == Digit(n % 10);
    }
  }

  /** Behind a common prefix, printed counters never coincide. */
  lemma PrintedInjective(prefix: string, m: nat, n: nat)
    ensures prefix + Decimal(m) == prefix + Decimal(n) <==> m == n
  {
    ReadPrinted(m);
    ReadPrinted(n);
    if prefix + Decimal(m) == prefix + Decimal(n) {
      assert (prefix + Decimal(m))[|prefix|..] == Decimal(m) && (prefix + Decimal(n))[|prefix|..] == Decimal(n);
    }
  }
}
