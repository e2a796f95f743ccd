/** Decimal and hexadecimal text of unsigned words: the digit loops of uart_putdec
    (dev/os/kernel/syscall.c:29-44) and uart_puthex (dev/os/kernel/trap.c:21-32). */
module Numerals {

  const HEX_DIGITS := "0123456789ABCDEF"

  function Digit(d: nat): (c: char)
    requires d < 16
    ensures d < 10 ==> c == '0' + d as char
  {
    HEX_DIGITS[d]
  }

  /** The number a digit character stands for. */
  function DigitValue(c: char): (v: nat)
    ensures v < 16
  {
    if '0' <= c <= '9' then c as int - '0' as int
    else if 'A' <= c <= 'F' then c as int - 'A' as int + 10
    else 0
  }

  lemma DigitReadsBack(d: nat)
    requires d < 16
    ensures DigitValue(Digit(d)) == d
  {
  }

  /** Positional value of a digit string. */
  function ValueOf(s: string, radix: nat): nat {
    if s == "" then 0 else ValueOf(s[..|s| - 1], radix) * radix + DigitValue(s[|s| - 1])
  }

  function Pow(b: nat, n: nat): nat {
    if n == 0 then 1 else b * Pow(b, n - 1)
  }

  lemma {:induction false} PowPositive(b: nat, n: nat)
    requires b > 0
    ensures Pow(b, n) > 0
  {
    if n > 0 {
      PowPositive(b, n - 1);
    }
  }

  /** Decimal text without leading zeros. */
  function Decimal(n: nat): (s: string)
    ensures s != ""
  {
    if n < 10 then [Digit(n)] else Decimal(n / 10) + [Digit(n % 10)]
  }

  /** The low n hexadecimal digits of v, most significant first. */
  function Hex(v: nat, n: nat): (s: string)
    ensures |s| == n
  {
    if n == 0 then "" else Hex(v / 16, n - 1) + [Digit(v % 16)]
  }

  lemma {:induction false} DecimalReadsBack(n: nat)
    ensures ValueOf(Decimal(n), 10) == n
    ensures n > 0 ==> Decimal(n)[0] != '0'
  {
    DigitReadsBack(n % 10);
    if n >= 10 {
      DecimalReadsBack(n / 10);
      assert Decimal(n)[..|Decimal(n)| - 1] == Decimal(n / 10);
    } else {
      assert Decimal(n)[..0] == "";
    }
  }

  lemma {:induction false} HexReadsBack(v: nat, n: nat)
    requires v < Pow(16, n)
    ensures ValueOf(Hex(v, n), 16) == v
  {
    if n > 0 {
      DigitReadsBack(v % 16);
      HexReadsBack(v / 16, n - 1);
      assert Hex(v, n)[..n - 1] == Hex(v / 16, n - 1);
    }
  }

  /** The digits a repeated-division loop still has to produce. */
  ghost function Unprinted(v: nat): string {
    if v == 0 then "" else Decimal(v)
  }

  lemma PeelDigit(v: nat, i: nat)
    requires 0 < v < Pow(10, i)
    ensures i > 0 && v / 10 < Pow(10, i - 1)
    ensures Unprinted(v) == Unprinted(v / 10) + [Digit(v % 10)]
  {
    assert Pow(10, i) == 10 * Pow(10, i - 1);
  }

  lemma TenDigits()
    ensures Pow(10, 10) == 10_000_000_000
  {
    assert Pow(10, 5) == 100_000;
    assert Pow(10, 8) == 100_000_000;
  }
}
