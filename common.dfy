/**
 * Shared vocabulary of the front end: the optional value used for every
 * fallible lookup, the fixed-width unsigned integer that spans and token
 * positions are stored in, and the decimal rendering used in messages.
 */
module Common {

  /** The absence value every lookup returns instead of failing. */
  datatype Option<+T> = None | Some(value: T)

  /** Number of distinct values of a 32-bit unsigned integer. */
  const U32_MODULUS: int := 0x1_0000_0000

  /** A value that fits the source's `u32`. */
  type u32 = x: int | 0 <= x < U32_MODULUS

  /** Reduces an unbounded integer to `u32` the way unsigned C++ arithmetic wraps. */
  function Wrap(x: int): (r: u32)
    ensures 0 <= x < U32_MODULUS ==> r == x
    ensures (r - x) % U32_MODULUS == 0
  {
    x % U32_MODULUS
  }

  /** Wrapping an operand before a `u32` addition does not change the wrapped sum. */
  lemma WrapOfWrapSum(a: int, b: int)
    ensures Wrap(Wrap(a) + b) == Wrap(a + b)
  {
    var k := a / U32_MODULUS;
    assert a == k * U32_MODULUS + Wrap(a);
    assert a + b == (Wrap(a) + b) + k * U32_MODULUS;
    SumModMultiple(Wrap(a) + b, k);
  }

  /** Adding a multiple of the modulus does not change the remainder. */
  lemma {:induction false} SumModMultiple(x: int, k: int)
    ensures (x + k * U32_MODULUS) % U32_MODULUS == x % U32_MODULUS
    decreases if k < 0 then -k else k
  {
    if k > 0 {
      SumModMultiple(x, k - 1);
      assert x + k * U32_MODULUS == (x + (k - 1) * U32_MODULUS) + U32_MODULUS;
    } else if k < 0 {
      SumModMultiple(x, k + 1);
      assert x + k * U32_MODULUS == (x + (k + 1) * U32_MODULUS) - U32_MODULUS;
    }
  }

  function Min(a: int, b: int): int { if a <= b then a else b }

  function Max(a: int, b: int): int { if a <= b then b else a }

  predicate IsDigitChar(c: char) { '0' <= c <= '9' }

  /** Decimal rendering of a number, as `operator<<` on an unsigned integer prints it. */
  function DecimalString(n: nat): (s: string)
    ensures |s| >= 1
    ensures forall k :: 0 <= k < |s| ==> IsDigitChar(s[k])
  {
    if n < 10 then [('0' as int + n) as char]
    else DecimalString(n / 10) + [('0' as int + n % 10) as char]
  }

  /** The number a string of decimal digits denotes (the reader of DecimalString). */
  function DecimalValue(s: string): nat
    requires forall k :: 0 <= k < |s| ==> IsDigitChar(s[k])
  {
    if s == [] then 0
    else
      assert IsDigitChar(s[|s| - 1]);
      DecimalValue(s[..|s| - 1]) * 10 + (s[|s| - 1] as int - '0' as int)
  }

  /** Rendering a number and reading it back gives the number. */
  lemma {:induction false} DecimalRoundTrip(n: nat)
    ensures DecimalValue(DecimalString(n)) == n
  {
    if n >= 10 {
      DecimalRoundTrip(n / 10);
      var s := DecimalString(n);
      assert s[..|s| - 1] == DecimalString(n / 10);
    }
  }
}
