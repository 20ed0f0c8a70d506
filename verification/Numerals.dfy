/**
 Decimal numerals as the program writes them (std::to_string) and as it reads
 them back: a signed 64-bit accumulator fed one char at a time.
 */
module Numerals {

  const INT64_MAX: int := 0x7fff_ffff_ffff_ffff
  const INT64_MIN: int := -0x8000_0000_0000_0000

  predicate IsInt64(n: int) {
    INT64_MIN <= n <= INT64_MAX
  }

  function DigitChar(d: nat): char
    requires d < 10
  {
    ('0' as int + d) as char
  }

  function Decimal(n: nat): string {
    if n < 10 then [DigitChar(n)] else Decimal(n / 10) + [DigitChar(n % 10)]
  }

  function ToText(n: int): string {
    if n < 0 then "-" + Decimal(-n) else Decimal(n)
  }

  predicate IsDigit(c: char) {
    '0' <= c <= '9'
  }

  lemma {:induction false} DecimalIsDigits(n: nat)
    ensures |Decimal(n)| >= 1
    ensures forall i :: 0 <= i < |Decimal(n)| ==> IsDigit(Decimal(n)[i])
  {
    if n >= 10 {
      DecimalIsDigits(n / 10);
    }
  }

  /** The accumulator of get_integer. Signed overflow has no meaning in C++. */
  datatype Number = Value(value: int) | Overflow

  /** A plain char is signed on the program's platforms: codes from 128 up are negative. */
  function SignedCode(c: char): int {
    var code := c as int % 256;
    if code < 128 then code else code - 256
  }

  /** One turn of the digit loop; a carriage return is skipped wherever it stands. */
  function Push(a: Number, c: char): Number {
    match a
    case Overflow => Overflow
    case Value(v) =>
      if c == '\r' then a
      else if !IsInt64(v * 10) then Overflow
      else
        var sum := v * 10 + (SignedCode(c) - SignedCode('0'));
        if IsInt64(sum) then Value(sum) else Overflow
  }

  function Accumulate(s: string): Number {
    if s == [] then Value(0) else Push(Accumulate(s[..|s| - 1]), s[|s| - 1])
  }

  lemma AccumulateNothing()
    ensures Accumulate([]) == Value(0)
  {
  }

  lemma {:induction false} AccumulateAppend(s: string, c: char)
    ensures Accumulate(s + [c]) == Push(Accumulate(s), c)
  {
    assert (s + [c])[..|s|] == s;
  }

  /** More chars never repair an overflow. */
  lemma {:induction false} OverflowStays(s: string, t: string)
    requires Accumulate(s).Overflow?
    ensures Accumulate(s + t).Overflow?
  {
    if t == [] {
      assert s + t == s;
    } else {
      var u := t[..|t| - 1];
      OverflowStays(s, u);
      assert s + t == (s + u) + [t[|t| - 1]];
      AccumulateAppend(s + u, t[|t| - 1]);
    }
  }

  lemma {:induction false} PushDigit(v: nat, d: nat)
    requires d < 10
    ensures Push(Value(v), DigitChar(d)) == if v * 10 + d <= INT64_MAX then Value(v * 10 + d) else Overflow
  {
    assert SignedCode(DigitChar(d)) == 48 + d;
  }

  /** What std::to_string writes is read back exactly, up to the largest int64 and no further. */
  lemma {:induction false} AccumulateDecimal(n: nat)
    ensures Accumulate(Decimal(n)) == if n <= INT64_MAX then Value(n) else Overflow
  {
    if n < 10 {
      AccumulateAppend([], DigitChar(n));
      assert [] + [DigitChar(n)] == [DigitChar(n)];
      PushDigit(0, n);
    } else {
      AccumulateDecimal(n / 10);
      AccumulateAppend(Decimal(n / 10), DigitChar(n % 10));
      if n / 10 <= INT64_MAX {
        PushDigit(n / 10, n % 10);
      }
    }
  }

  lemma {:induction false} AccumulateDecimalCR(n: nat)
    ensures Accumulate(Decimal(n) + "\r") == Accumulate(Decimal(n))
  {
    AccumulateAppend(Decimal(n), '\r');
  }

  /** Every intermediate accumulator is the value of a digit prefix and stays within int64. */
  lemma {:induction false} PrefixValue(n: nat, k: nat)
    requires n <= INT64_MAX && k <= |Decimal(n)|
    ensures var a := Accumulate(Decimal(n)[..k]); a.Value? && 0 <= a.value <= n
  {
    var d := Decimal(n);
    if k == |d| {
      AccumulateDecimal(n);
      assert d[..k] == d;
    } else if n >= 10 {
      PrefixValue(n / 10, k);
      assert d[..k] == Decimal(n / 10)[..k];
    }
  }
}
