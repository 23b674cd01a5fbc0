/** Decimal numerals of unsigned 64-bit integers. */
module Decimal {
  import opened Wrappers
  import opened Text
  import opened Regex

  const U64_LIMIT: nat := 0x1_0000_0000_0000_0000

  /** The value of a string of digits. */
  function Value(s: string): nat
    requires All(s, IsDigit)
  {
    if s == "" then 0 else 10 * Value(s[..|s| - 1]) + (s[|s| - 1] as int - '0' as int)
  }

  /** Accepts non-empty strings of ASCII digits, leading zeros included, that do not overflow. */
  function ParseU64(s: string): Option<nat> {
    if s != "" && All(s, IsDigit) && Value(s) < U64_LIMIT then Some(Value(s)) else None
  }

  function Print(n: nat): (s: string)
    ensures s != "" && All(s, IsDigit)
  {
    var digit := [(n % 10 + '0' as int) as char];
    if n < 10 then digit else Print(n / 10) + digit
  }

  function Pow10(k: nat): nat {
    if k == 0 then 1 else 10 * Pow10(k - 1)
  }

  lemma {:induction false} PrintedValue(n: nat)
    ensures Value(Print(n)) == n
  {
    var s := Print(n);
    if n < 10 {
      assert s[..|s| - 1] == "";
    } else {
      assert s[..|s| - 1] == Print(n / 10);
      PrintedValue(n / 10);
    }
  }

  lemma {:induction false} PrintedLength(n: nat, k: nat)
    requires k > 0 && n < Pow10(k)
    ensures |Print(n)| <= k
  {
    if n >= 10 {
      PrintedLength(n / 10, k - 1);
    }
  }

  /** A printed u64 has at most 20 digits and parses to itself. */
  lemma U64RoundTrip(n: nat)
    requires n < U64_LIMIT
    ensures ParseU64(Print(n)) == Some(n) && |Print(n)| <= 20
  {
    PrintedValue(n);
    assert Pow10(5) == 100000;
    assert Pow10(10) == 10000000000 by { assert Pow10(7) == 10000000; }
    assert Pow10(15) == 1000000000000000 by { assert Pow10(12) == 1000000000000; }
    assert Pow10(20) == 100000000000000000000 by { assert Pow10(17) == 100000000000000000; }
    PrintedLength(n, 20);
  }
}
