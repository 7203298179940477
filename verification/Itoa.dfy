/** Decimal rendering of the batch sequence number. */
module Itoa {

  const BUFFER := 20
  const INT64_LIMIT := 0x8000_0000_0000_0000

  function Digit(d: nat): char
    requires d < 10
  {
    '0' + d as char
  }

  function Decimal(n: nat): string {
    if n < 10 then [Digit(n)] else Decimal(n / 10) + [Digit(n % 10)]
  }

  /** The number a digit string spells. */
  function Read(s: string): int {
    if s == [] then 0 else 10 * Read(s[..|s| - 1]) + (s[|s| - 1] as int - '0' as int)
  }

  lemma {:induction false} DecimalReadsBack(n: nat)
    ensures Read(Decimal(n)) == n
    ensures forall i :: 0 <= i < |Decimal(n)| ==> '0' <= Decimal(n)[i] <= '9'
  {
    var s := Decimal(n);
    if n < 10 {
      assert s[..0] == [];
    } else {
      DecimalReadsBack(n / 10);
      assert s[..|s| - 1] == Decimal(n / 10);
    }
  }

  lemma DecimalIsInjective(m: nat, n: nat)
    requires Decimal(m) == Decimal(n)
    ensures m == n
  {
    DecimalReadsBack(m);
    DecimalReadsBack(n);
  }

  function Pow10(n: nat): nat {
    if n == 0 then 1 else 10 * Pow10(n - 1)
  }

  lemma Int64FitsBuffer()
    ensures INT64_LIMIT <= Pow10(BUFFER)
  {
    assert Pow10(5) == 100_000;
    assert Pow10(10) == 10_000_000_000 by {
      assert Pow10(8) == 1000 * Pow10(5);
    }
    assert Pow10(15) == 1_000_000_000_000_000 by {
      assert Pow10(13) == 1000 * Pow10(10);
    }
    assert Pow10(20) == 100_000_000_000_000_000_000 by {
      assert Pow10(18) == 1000 * Pow10(15);
    }
  }

  /** Fills a 20-byte buffer from its end. No int64 leaves the buffer, and the
      result is the decimal form; a negative value gives the empty string. */
  method Itoa(value: int) returns (s: string)
    requires -INT64_LIMIT <= value < INT64_LIMIT
    ensures value >= 0 ==> s == Decimal(value)
    ensures value < 0 ==> s == ""
  {
    if value == 0 {
      return "0";
    }
    var buf := new char[BUFFER];
    var index := buf.Length;
    var rest := value;
    Int64FitsBuffer();
    while rest > 0
      invariant 0 <= index <= buf.Length
      invariant value < 0 ==> rest == value && index == buf.Length
      invariant value > 0 ==> 0 <= rest < Pow10(index)
      invariant value > 0 && rest > 0 ==> Decimal(value) == Decimal(rest) + buf[index..]
      invariant value > 0 && rest == 0 ==> Decimal(value) == buf[index..]
    {
      ghost var tail := buf[index..];
      index := index - 1;
      buf[index] := Digit(rest % 10);
      assert buf[index..] == [Digit(rest % 10)] + tail;
      assert rest >= 10 ==> Decimal(rest / 10) + ([Digit(rest % 10)] + tail) == Decimal(rest) + tail;
      rest := rest / 10;
    }
    s := buf[index..];
  }
}
